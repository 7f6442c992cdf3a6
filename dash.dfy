/** The state the `BadiliDash` object keeps between clicks: the shared
    `selected_node_ids` array and the two gating flags. */
module Dash {
  import opened Wrappers
  import opened Selection
  import opened Gating
  import Messages

  class BadiliDash {
    var selectedNodeIds: seq<string>
    var isMappingValid: Flag
    var isDryRunPassed: Flag

    /** A fresh dashboard: no selection yet, both flags never assigned. */
    constructor ()
      ensures selectedNodeIds == [] && isMappingValid == Unset && isDryRunPassed == Unset
    {
      selectedNodeIds := [];
      isMappingValid := Unset;
      isDryRunPassed := Unset;
    }

    /** `getSelectedItems`: append the name of every checked row, in
        pre-order, to the shared array. */
    method GetSelectedItems(node: seq<GridRow>)
      modifies this`selectedNodeIds
      ensures selectedNodeIds == old(selectedNodeIds) + CheckedNames(node)
      decreases node
    {
      for i := 0 to |node|
        invariant selectedNodeIds == old(selectedNodeIds) + CheckedNames(node[..i])
      {
        var row := node[i];
        CheckedNamesStep(node, i);
        if row.checked {
          selectedNodeIds := selectedNodeIds + [row.name];
        }
        GetSelectedItems(row.records);
      }
      assert node[..|node|] == node;
    }

    /** `processButtonAction`: reset the array, collect the selection from the
        top-level rows, and dispatch on the button. */
    method ProcessButtonAction(buttonId: string, topLevel: seq<GridRow>) returns (outcome: ButtonOutcome)
      modifies this`selectedNodeIds
      ensures selectedNodeIds == CheckedNames(topLevel)
      ensures outcome == Dispatch(buttonId, selectedNodeIds)
    {
      selectedNodeIds := [];
      GetSelectedItems(topLevel);
      outcome := Dispatch(buttonId, selectedNodeIds);
    }

    /** The success callback of `validateMappings`. */
    method OnValidationReply(reply: Option<ValidationReply>)
      modifies this`isMappingValid
      ensures isMappingValid == Record(old(isMappingValid), MappingVerdict(reply))
    {
      if reply.Some? {
        var data := reply.value;
        if Truthy(data.error) {
          return;
        }
        if data.comments.None? {
          return;
        }
        isMappingValid := if data.isMappingValid == Some(true) then Set(true) else Set(false);
      }
    }

    /** `executeProcessingDryRun(is_dry_run)` up to the request: whether one
        is sent, and with which `is_dry_run`. It changes no flag. */
    method ExecuteProcessingDryRun(isDryRun: bool) returns (outcome: GateOutcome)
      ensures outcome == Gate(isMappingValid, isDryRunPassed, isDryRun)
      ensures outcome.Sent? ==> !IsFalse(isMappingValid)
      ensures outcome.Sent? && !isDryRun ==> !IsFalse(isDryRunPassed)
    {
      if isMappingValid == Set(false) {
        return RefusedMappingNotValid;
      }
      if !isDryRun {
        if isDryRunPassed == Set(false) {
          return RefusedDryRunNotPassed;
        }
      }
      return Sent(isDryRun);
    }

    /** The success callback of `executeProcessingDryRun`: the comments panel
        (None when reading `comments` throws) and the new dry-run flag. */
    method OnProcessingReply(reply: Option<ProcessingReply>) returns (commentsHtml: Option<string>)
      modifies this`isDryRunPassed
      ensures isDryRunPassed == Record(old(isDryRunPassed), RunVerdict(reply))
      ensures commentsHtml.Some? <==> RunVerdict(reply).Some?
      ensures commentsHtml.Some? ==>
                commentsHtml.value == if reply.value.comments.value == [] then ""
                                      else Messages.Message(reply.value.comments.value)
    {
      commentsHtml := None;
      if reply.Some? {
        var data := reply.value;
        if data.comments.None? {
          return;
        }
        var comments := data.comments.value;
        if |comments| != 0 {
          var message := Messages.FormatErrorMessages(comments);
          commentsHtml := Some(message);
        } else {
          commentsHtml := Some("");
        }
        isDryRunPassed := if data.error == Some(false) then Set(true) else Set(false);
      }
    }
  }
}
