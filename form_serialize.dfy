/** `objectifyForm`: fold a form's serialized name/value array into an
    object, later entries overwriting earlier ones with the same name. */
module FormSerialize {
  /** One element of jQuery's `serializeArray()`. */
  datatype Field = Field(name: string, value: string)

  /** The object after writing every field in order. */
  function Objectified(formArray: seq<Field>): map<string, string>
  {
    if formArray == [] then map[]
    else
      var last := formArray[|formArray| - 1];
      Objectified(formArray[..|formArray| - 1])[last.name := last.value]
  }

  /** The set of names in the array. */
  function Names(formArray: seq<Field>): set<string>
  {
    set k | 0 <= k < |formArray| :: formArray[k].name
  }

  /** True when field j is the last one with its name. */
  predicate IsLast(formArray: seq<Field>, j: int)
  {
    0 <= j < |formArray| && forall k :: j < k < |formArray| ==> formArray[k].name != formArray[j].name
  }

  /** The object's keys are exactly the names of the fields. */
  lemma {:induction false} ObjectifiedKeys(formArray: seq<Field>)
    ensures Objectified(formArray).Keys == Names(formArray)
  {
    if formArray != [] {
      var n := |formArray| - 1;
      ObjectifiedKeys(formArray[..n]);
      assert Names(formArray) == Names(formArray[..n]) + {formArray[n].name} by {
        forall x | x in Names(formArray) ensures x in Names(formArray[..n]) + {formArray[n].name} {
          var k :| 0 <= k < |formArray| && formArray[k].name == x;
          if k < n { assert formArray[..n][k] == formArray[k]; }
        }
        forall x | x in Names(formArray[..n]) ensures x in Names(formArray) {
          var k :| 0 <= k < n && formArray[..n][k].name == x;
          assert formArray[k].name == x;
        }
      }
    }
  }

  /** Each name maps to the value of its last occurrence: the last write wins. */
  lemma {:induction false} LastWriteWins(formArray: seq<Field>, j: int)
    requires IsLast(formArray, j)
    ensures formArray[j].name in Objectified(formArray)
    ensures Objectified(formArray)[formArray[j].name] == formArray[j].value
  {
    var n := |formArray| - 1;
    if j < n {
      assert IsLast(formArray[..n], j);
      LastWriteWins(formArray[..n], j);
    }
  }

  /** The loop of `objectifyForm`. */
  method ObjectifyForm(formArray: seq<Field>) returns (returnArray: map<string, string>)
    ensures returnArray == Objectified(formArray)
  {
    returnArray := map[];
    for i := 0 to |formArray|
      invariant returnArray == Objectified(formArray[..i])
    {
      assert formArray[..i + 1][..i] == formArray[..i];
      returnArray := returnArray[formArray[i].name := formArray[i].value];
    }
    assert formArray[..|formArray|] == formArray;
  }
}
