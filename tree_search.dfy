/** `BadiliDash.prototype.jqxRecursion`: find the jqxTree item with a given id
    in a forest of items, testing each node before its `items` and its `items`
    before its later siblings. */
module TreeSearch {
  import opened Wrappers

  /** A jqxTree item. An item whose `items` is undefined is searched exactly
      like one whose `items` is empty, so both are the empty sequence here. */
  datatype TreeItem = TreeItem(id: int, text: string, items: seq<TreeItem>)

  /** The forest in pre-order: a node, then its items, then its later siblings. */
  function PreOrder(forest: seq<TreeItem>): seq<TreeItem>
    decreases forest
  {
    if forest == [] then []
    else [forest[0]] + PreOrder(forest[0].items) + PreOrder(forest[1..])
  }

  /** The first node of `nodes` whose id is `id`, or None when there is none. */
  function FirstWithId(nodes: seq<TreeItem>, id: int): (r: Option<TreeItem>)
    ensures r.Some? ==> r.value.id == id && r.value in nodes
    ensures r.None? <==> forall k :: 0 <= k < |nodes| ==> nodes[k].id != id
    ensures r.Some? ==> exists k :: 0 <= k < |nodes| && nodes[k] == r.value
                          && forall j :: 0 <= j < k ==> nodes[j].id != id
  {
    if nodes == [] then None
    else if nodes[0].id == id then Some(nodes[0])
    else
      var r := FirstWithId(nodes[1..], id);
      assert forall k :: 1 <= k < |nodes| ==> nodes[k] == nodes[1..][k - 1];
      r
  }

  lemma {:induction false} PreOrderAppend(a: seq<TreeItem>, b: seq<TreeItem>)
    ensures PreOrder(a + b) == PreOrder(a) + PreOrder(b)
    decreases a
  {
    if a == [] {
      assert a + b == b;
    } else {
      assert (a + b)[0] == a[0];
      assert (a + b)[1..] == a[1..] + b;
      PreOrderAppend(a[1..], b);
    }
  }

  lemma {:induction false} FirstWithIdAppend(a: seq<TreeItem>, b: seq<TreeItem>, id: int)
    ensures FirstWithId(a + b, id) ==
              if FirstWithId(a, id).Some? then FirstWithId(a, id) else FirstWithId(b, id)
  {
    if a == [] {
      assert a + b == b;
    } else {
      assert (a + b)[0] == a[0];
      assert (a + b)[1..] == a[1..] + b;
      FirstWithIdAppend(a[1..], b, id);
    }
  }

  /** Pre-order of a forest around its i-th root: the roots before it, the
      root, its items, and the roots after it. */
  lemma {:induction false} PreOrderAround(objects: seq<TreeItem>, i: nat)
    requires i < |objects|
    ensures PreOrder(objects[..i + 1]) == PreOrder(objects[..i]) + [objects[i]] + PreOrder(objects[i].items)
    ensures PreOrder(objects) == PreOrder(objects[..i + 1]) + PreOrder(objects[i + 1..])
  {
    assert objects[..i + 1] == objects[..i] + [objects[i]];
    PreOrderAppend(objects[..i], [objects[i]]);
    assert [objects[i]][1..] == [];
    assert objects == objects[..i + 1] + objects[i + 1..];
    PreOrderAppend(objects[..i + 1], objects[i + 1..]);
  }

  /** The search as the dashboard runs it: a loop over the siblings and a
      recursive call into the `items` of every node that does not match.
      It returns the first node in pre-order whose id is `elementId`. */
  method JqxRecursion(objects: seq<TreeItem>, elementId: int) returns (r: Option<TreeItem>)
    ensures r == FirstWithId(PreOrder(objects), elementId)
    decreases objects
  {
    var i := 0;
    while i < |objects|
      invariant 0 <= i <= |objects|
      invariant FirstWithId(PreOrder(objects[..i]), elementId).None?
    {
      var node := objects[i];
      ghost var before, below, after := PreOrder(objects[..i]), PreOrder(node.items), PreOrder(objects[i + 1..]);
      PreOrderAround(objects, i);
      FirstWithIdAppend(before + [node] + below, after, elementId);
      FirstWithIdAppend(before + [node], below, elementId);
      FirstWithIdAppend(before, [node], elementId);
      if elementId == node.id {
        return Some(node);
      } else {
        var item := JqxRecursion(node.items, elementId);
        if item.Some? {
          return item;
        }
      }
      i := i + 1;
    }
    assert objects[..i] == objects;
    return None;
  }
}
