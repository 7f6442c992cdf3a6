/** `generateChartsHTMLTemplate`: one chart panel per entry, two panels per
    bootstrap row, and a placeholder row after an odd number of panels. */
module ChartLayout {
  /** The parts the routine concatenates. */
  datatype Piece = OpenRow | View(key: string, viewId: string) | CloseRow | Placeholder

  const RowOpen := "<div class='row'>"
  const RowClose := "</div>"
  const RowPlaceholder := "<div class='row'>&nbsp;</div>"

  /** The element id of a panel: `div_prefix + "_" + key`. */
  function ViewId(divPrefix: string, key: string): string
  {
    divPrefix + "_" + key
  }

  /** The pieces for the entry at position i: a row opens before an entry at
      an even position and closes after an entry at an odd one. */
  function EntryPieces(i: nat, key: string, divPrefix: string): seq<Piece>
  {
    if i % 2 == 0 then [OpenRow, View(key, ViewId(divPrefix, key))]
    else [View(key, ViewId(divPrefix, key)), CloseRow]
  }

  /** The pieces for all entries, in iteration order. */
  function Body(keys: seq<string>, divPrefix: string): seq<Piece>
  {
    if keys == [] then []
    else Body(keys[..|keys| - 1], divPrefix) + EntryPieces(|keys| - 1, keys[|keys| - 1], divPrefix)
  }

  /** The whole layout: the body, then a placeholder when the count is odd. */
  function Layout(keys: seq<string>, divPrefix: string): seq<Piece>
  {
    Body(keys, divPrefix) + if |keys| % 2 == 1 then [Placeholder] else []
  }

  /** The HTML of one piece; `template` stands for `sprintf(template, key, view_id)`. */
  function PieceHtml(piece: Piece, template: (string, string) -> string): string
  {
    match piece
    case OpenRow => RowOpen
    case View(key, viewId) => template(key, viewId)
    case CloseRow => RowClose
    case Placeholder => RowPlaceholder
  }

  /** The per-piece HTML of a call with the given template. */
  function Html(template: (string, string) -> string): Piece -> string
  {
    piece => PieceHtml(piece, template)
  }

  /** The HTML of a piece sequence: the concatenation of its pieces' HTML. */
  function Render(pieces: seq<Piece>, html: Piece -> string): string
  {
    if pieces == [] then ""
    else Render(pieces[..|pieces| - 1], html) + html(pieces[|pieces| - 1])
  }

  lemma {:induction false} RenderAppend(a: seq<Piece>, b: seq<Piece>, html: Piece -> string)
    ensures Render(a + b, html) == Render(a, html) + Render(b, html)
    decreases |b|
  {
    if b == [] {
      assert a + b == a;
    } else {
      var b' := b[..|b| - 1];
      assert (a + b)[..|a + b| - 1] == a + b';
      assert (a + b)[|a + b| - 1] == b[|b| - 1];
      RenderAppend(a, b', html);
    }
  }

  /** Entry j of the body is at positions 2j and 2j+1: an opened row and its
      view when j is even, its view and a closed row when j is odd. */
  ghost predicate EntryAt(body: seq<Piece>, keys: seq<string>, divPrefix: string, j: int)
    requires 0 <= j < |keys| && |body| == 2 * |keys|
  {
    var view := View(keys[j], ViewId(divPrefix, keys[j]));
    if j % 2 == 0 then body[2 * j] == OpenRow && body[2 * j + 1] == view
    else body[2 * j] == view && body[2 * j + 1] == CloseRow
  }

  /** The body holds, for every entry in key order, its two pieces, so views
      come in iteration order and rows alternate open/close. */
  lemma {:induction false} BodyShape(keys: seq<string>, divPrefix: string)
    ensures |Body(keys, divPrefix)| == 2 * |keys|
    ensures forall j :: 0 <= j < |keys| ==> EntryAt(Body(keys, divPrefix), keys, divPrefix, j)
  {
    if keys != [] {
      var n := |keys| - 1;
      var init := keys[..n];
      BodyShape(init, divPrefix);
      var body := Body(keys, divPrefix);
      assert body == Body(init, divPrefix) + EntryPieces(n, keys[n], divPrefix);
      forall j | 0 <= j < |keys| ensures EntryAt(body, keys, divPrefix, j) {
        if j < n {
          assert init[j] == keys[j];
          assert EntryAt(Body(init, divPrefix), init, divPrefix, j);
        }
      }
    }
  }

  /** A placeholder is appended exactly when the number of entries is odd,
      and it is the only piece after the body. */
  lemma PlaceholderIffOdd(keys: seq<string>, divPrefix: string)
    ensures |Layout(keys, divPrefix)| == 2 * |keys| + |keys| % 2
    ensures (Placeholder in Layout(keys, divPrefix)) <==> |keys| % 2 == 1
  {
    BodyShape(keys, divPrefix);
    var body := Body(keys, divPrefix);
    var layout := Layout(keys, divPrefix);
    if |keys| % 2 == 1 {
      assert layout[|layout| - 1] == Placeholder;
    } else {
      assert layout == body;
      forall p | 0 <= p < |body| ensures body[p] != Placeholder {
        assert EntryAt(body, keys, divPrefix, p / 2);
        assert p == 2 * (p / 2) || p == 2 * (p / 2) + 1;
      }
    }
  }

  /** Rows a piece opens (1), closes (-1) or leaves as they are (0). */
  function RowDelta(piece: Piece): int
  {
    match piece
    case OpenRow => 1
    case CloseRow => -1
    case _ => 0
  }

  /** Rows opened minus rows closed by a piece sequence. */
  function OpenRows(pieces: seq<Piece>): int
  {
    if pieces == [] then 0 else OpenRows(pieces[..|pieces| - 1]) + RowDelta(pieces[|pieces| - 1])
  }

  lemma {:induction false} OpenRowsAppend(a: seq<Piece>, b: seq<Piece>)
    ensures OpenRows(a + b) == OpenRows(a) + OpenRows(b)
    decreases |b|
  {
    if b == [] {
      assert a + b == a;
    } else {
      var b' := b[..|b| - 1];
      assert (a + b)[..|a + b| - 1] == a + b';
      assert (a + b)[|a + b| - 1] == b[|b| - 1];
      OpenRowsAppend(a, b');
    }
  }

  lemma OpenRowsPair(e: seq<Piece>)
    requires |e| == 2
    ensures OpenRows(e) == RowDelta(e[0]) + RowDelta(e[1])
  {
    assert e[..1][..0] == [];
    assert OpenRows(e[..1]) == OpenRows([]) + RowDelta(e[0]);
  }

  /** Every row the routine opens is closed except, for an odd count, the
      last one: the placeholder is a complete row of its own and closes
      nothing. The source's comment on the placeholder calls it the closing
      of the section; as written it does not close the open row. */
  lemma {:induction false} RowsLeftOpen(keys: seq<string>, divPrefix: string)
    ensures OpenRows(Layout(keys, divPrefix)) == |keys| % 2
  {
    BodyOpenRows(keys, divPrefix);
    OpenRowsAppend(Body(keys, divPrefix), if |keys| % 2 == 1 then [Placeholder] else []);
    assert OpenRows([Placeholder]) == OpenRows([Placeholder][..0]) + RowDelta(Placeholder);
    assert [Placeholder][..0] == [];
  }

  lemma {:induction false} BodyOpenRows(keys: seq<string>, divPrefix: string)
    ensures OpenRows(Body(keys, divPrefix)) == |keys| % 2
  {
    if keys != [] {
      var n := |keys| - 1;
      BodyOpenRows(keys[..n], divPrefix);
      var e := EntryPieces(n, keys[n], divPrefix);
      OpenRowsAppend(Body(keys[..n], divPrefix), e);
      OpenRowsPair(e);
    }
  }

  lemma BodyStep(keys: seq<string>, i: nat, divPrefix: string)
    requires i < |keys|
    ensures Body(keys[..i + 1], divPrefix) == Body(keys[..i], divPrefix) + EntryPieces(i, keys[i], divPrefix)
  {
    assert keys[..i + 1][..i] == keys[..i];
  }

  lemma RenderPair(e: seq<Piece>, html: Piece -> string)
    requires |e| == 2
    ensures Render(e, html) == html(e[0]) + html(e[1])
  {
    assert e[..1][..0] == [];
    assert Render(e[..1], html) == Render([], html) + html(e[0]);
  }

  /** Rendering the body one entry further appends that entry's pieces. */
  lemma RenderStep(keys: seq<string>, i: nat, divPrefix: string, html: Piece -> string)
    requires i < |keys|
    ensures Render(Body(keys[..i + 1], divPrefix), html) ==
              Render(Body(keys[..i], divPrefix), html) +
              if i % 2 == 0 then html(OpenRow) + html(View(keys[i], ViewId(divPrefix, keys[i])))
              else html(View(keys[i], ViewId(divPrefix, keys[i]))) + html(CloseRow)
  {
    var e := EntryPieces(i, keys[i], divPrefix);
    BodyStep(keys, i, divPrefix);
    RenderAppend(Body(keys[..i], divPrefix), e, html);
    RenderPair(e, html);
  }

  lemma LayoutRender(keys: seq<string>, divPrefix: string, html: Piece -> string)
    ensures Render(Layout(keys, divPrefix), html) ==
              Render(Body(keys, divPrefix), html) + if |keys| % 2 == 1 then html(Placeholder) else ""
  {
    var tail: seq<Piece> := if |keys| % 2 == 1 then [Placeholder] else [];
    RenderAppend(Body(keys, divPrefix), tail, html);
    assert [Placeholder][..0] == [];
  }

  /** One step of the loop in terms of the template: a row opened before an
      entry at an even position, closed after an entry at an odd one. */
  lemma HtmlStep(keys: seq<string>, i: nat, divPrefix: string, template: (string, string) -> string)
    requires i < |keys|
    ensures Render(Body(keys[..i + 1], divPrefix), Html(template)) ==
              Render(Body(keys[..i], divPrefix), Html(template)) +
              if i % 2 == 0 then RowOpen + template(keys[i], ViewId(divPrefix, keys[i]))
              else template(keys[i], ViewId(divPrefix, keys[i])) + RowClose
  {
    RenderStep(keys, i, divPrefix, Html(template));
  }

  /** The end of the routine in terms of the template. */
  lemma HtmlLayout(keys: seq<string>, divPrefix: string, template: (string, string) -> string)
    ensures Render(Layout(keys, divPrefix), Html(template)) ==
              Render(Body(keys, divPrefix), Html(template)) + if |keys| % 2 == 1 then RowPlaceholder else ""
  {
    LayoutRender(keys, divPrefix, Html(template));
  }

  /** The loop of `generateChartsHTMLTemplate`, with `merged_views` as a
      local string. The source never declares `merged_views`, so without
      entries it returns the string an earlier call left in that global, or
      throws a ReferenceError when no call has assigned it yet: at least one
      entry is required. */
  method GenerateChartsHtmlTemplate(keys: seq<string>, divPrefix: string, template: (string, string) -> string)
    returns (mergedViews: string)
    requires |keys| > 0
    ensures mergedViews == Render(Layout(keys, divPrefix), Html(template))
  {
    mergedViews := "";
    var i := 0;
    assert keys[..0] == [];
    while i < |keys|
      invariant 0 <= i <= |keys|
      invariant mergedViews == Render(Body(keys[..i], divPrefix), Html(template))
    {
      var key := keys[i];
      var viewId := ViewId(divPrefix, key);
      var view := template(key, viewId);
      HtmlStep(keys, i, divPrefix, template);
      ghost var before := mergedViews;
      if i == 0 {
        mergedViews := RowOpen + view;
      } else if i % 2 == 0 {
        mergedViews := mergedViews + RowOpen;
        mergedViews := mergedViews + view;
        assert mergedViews == before + (RowOpen + view);
      } else {
        mergedViews := mergedViews + view;
        mergedViews := mergedViews + RowClose;
        assert mergedViews == before + (view + RowClose);
      }
      i := i + 1;
    }
    assert keys[..i] == keys;
    HtmlLayout(keys, divPrefix, template);
    if i % 2 == 1 {
      mergedViews := mergedViews + RowPlaceholder;
    }
  }
}
