/** `formatErrorMessages`: the comments of a processing reply as one
    dismissable alert, or the "mappings are valid" banner when there are none. */
module Messages {
  const DismissButton := "<button aria-hidden=\"true\" data-dismiss=\"alert\" class=\"close\" type=\"button\">×</button>"
  const AlertOpen := "<div class=\"alert alert-dismissable\">" + DismissButton
  const AlertClose := "</div>"
  const ValidBanner := "<div class=\"alert alert-success alert-dismissable\">" + DismissButton
                       + "The mappings are valid. No warning/comments</div>"

  /** One comment as a danger paragraph. */
  function Paragraph(comment: string): string
  {
    "<p class=\"alert text-danger\">" + comment + "</p>"
  }

  /** The paragraphs of the comments, in order. */
  function Paragraphs(comments: seq<string>): seq<char>
  {
    if comments == [] then ""
    else Paragraphs(comments[..|comments| - 1]) + Paragraph(comments[|comments| - 1])
  }

  /** The message shown for a list of comments. */
  function Message(comments: seq<string>): string
  {
    if comments == [] then ValidBanner else AlertOpen + Paragraphs(comments) + AlertClose
  }

  /** The banner is shown exactly when there are no comments: every alert
      built from comments differs from it at the 25th character. */
  lemma BannerOnlyWithoutComments(comments: seq<string>)
    ensures Message(comments) == ValidBanner <==> comments == []
  {
    if comments != [] {
      var m := AlertOpen + Paragraphs(comments) + AlertClose;
      assert m[24] == AlertOpen[24] == 'd';
      assert ValidBanner[24] == 's';
    }
  }

  /** The loop of `formatErrorMessages`, appending one paragraph per comment. */
  method FormatErrorMessages(comments: seq<string>) returns (message: string)
    ensures message == Message(comments)
  {
    if |comments| != 0 {
      message := "";
      for i := 0 to |comments|
        invariant message == Paragraphs(comments[..i])
      {
        assert comments[..i + 1][..i] == comments[..i];
        message := message + Paragraph(comments[i]);
      }
      assert comments[..|comments|] == comments;
      message := AlertOpen + message + AlertClose;
    } else {
      message := ValidBanner;
    }
  }
}
