/** The mapping-validation / dry-run / processing gate of the mappings page.
    Two flags of the dashboard object start out undefined; the validation
    reply sets `is_mapping_valid`, every processing reply sets
    `is_dry_run_passed`, and a run is refused only when a flag is `false`. */
module Gating {
  import opened Wrappers

  /** A dashboard flag: never assigned (undefined), or assigned a boolean. */
  datatype Flag = Unset | Set(b: bool)

  /** `flag == false` in JavaScript: an undefined flag is not false. */
  predicate IsFalse(f: Flag) { f == Set(false) }

  /** A JSON reply of `/validate_mappings/`. Absent members are None;
      `comments` holds the number of comments. */
  datatype ValidationReply = ValidationReply(error: Option<bool>, comments: Option<nat>, isMappingValid: Option<bool>)

  /** A JSON reply of `/manual_data_process/`. */
  datatype ProcessingReply = ProcessingReply(error: Option<bool>, comments: Option<seq<string>>)

  /** The truthiness of a JSON member that is absent or a boolean. */
  predicate Truthy(v: Option<bool>) { v == Some(true) }

  /** The verdict a validation reply records, if it records one: None after a
      communication error (no reply), after a reply whose `error` is truthy,
      and after a reply without `comments` (reading its length throws before
      the flag is assigned). */
  function MappingVerdict(reply: Option<ValidationReply>): (v: Option<bool>)
    ensures v.Some? <==> reply.Some? && !Truthy(reply.value.error) && reply.value.comments.Some?
    ensures v == Some(true) <==>
              (reply.Some? && !Truthy(reply.value.error) && reply.value.comments.Some?
               && reply.value.isMappingValid == Some(true))
  {
    match reply
    case None => None
    case Some(d) =>
      if Truthy(d.error) || d.comments.None? then None
      else Some(d.isMappingValid == Some(true))
  }

  /** The verdict a processing reply records: `data.error == false`, unless
      there is no reply or it has no `comments`. The server fills `error`
      with the parser's success value (views.py:383), so if that value is
      true on success the recorded verdict is inverted; the parser is not
      part of this model, so the client's reading is modelled as written. */
  function RunVerdict(reply: Option<ProcessingReply>): (v: Option<bool>)
    ensures v.Some? <==> reply.Some? && reply.value.comments.Some?
    ensures v == Some(true) <==> reply.Some? && reply.value.comments.Some? && reply.value.error == Some(false)
  {
    match reply
    case None => None
    case Some(d) => if d.comments.None? then None else Some(d.error == Some(false))
  }

  /** The flag after a reply that may or may not record a verdict. */
  function Record(f: Flag, verdict: Option<bool>): (r: Flag)
    ensures verdict.None? ==> r == f
    ensures verdict.Some? ==> r == Set(verdict.value)
  {
    if verdict.Some? then Set(verdict.value) else f
  }

  /** What `executeProcessingDryRun(is_dry_run)` does with the current flags. */
  datatype GateOutcome = RefusedMappingNotValid | RefusedDryRunNotPassed | Sent(isDryRun: bool)

  function Gate(isMappingValid: Flag, isDryRunPassed: Flag, isDryRun: bool): (r: GateOutcome)
    ensures r.Sent? <==> !IsFalse(isMappingValid) && (isDryRun || !IsFalse(isDryRunPassed))
    ensures r.Sent? ==> r.isDryRun == isDryRun
    ensures IsFalse(isMappingValid) ==> r == RefusedMappingNotValid
    ensures !IsFalse(isMappingValid) && !isDryRun && IsFalse(isDryRunPassed) ==> r == RefusedDryRunNotPassed
  {
    if IsFalse(isMappingValid) then RefusedMappingNotValid
    else if !isDryRun && IsFalse(isDryRunPassed) then RefusedDryRunNotPassed
    else Sent(isDryRun)
  }

  /** Replies the page receives, in the order it receives them. */
  datatype Event = Validation(v: Option<ValidationReply>) | Processing(p: Option<ProcessingReply>)

  datatype Flags = Flags(isMappingValid: Flag, isDryRunPassed: Flag)

  function Step(s: Flags, e: Event): Flags
  {
    match e
    case Validation(v) => s.(isMappingValid := Record(s.isMappingValid, MappingVerdict(v)))
    case Processing(p) => s.(isDryRunPassed := Record(s.isDryRunPassed, RunVerdict(p)))
  }

  /** The flags after a sequence of replies, starting from a fresh page. */
  function After(events: seq<Event>): Flags
  {
    if events == [] then Flags(Unset, Unset)
    else Step(After(events[..|events| - 1]), events[|events| - 1])
  }

  /** The verdict of the last validation reply that recorded one. */
  function LastMappingVerdict(events: seq<Event>): Option<bool>
  {
    if events == [] then None
    else
      var e := events[|events| - 1];
      if e.Validation? && MappingVerdict(e.v).Some? then MappingVerdict(e.v)
      else LastMappingVerdict(events[..|events| - 1])
  }

  /** The verdict of the last processing reply that recorded one. */
  function LastRunVerdict(events: seq<Event>): Option<bool>
  {
    if events == [] then None
    else
      var e := events[|events| - 1];
      if e.Processing? && RunVerdict(e.p).Some? then RunVerdict(e.p)
      else LastRunVerdict(events[..|events| - 1])
  }

  function FlagOf(v: Option<bool>): Flag
  {
    if v.Some? then Set(v.value) else Unset
  }

  /** Each flag holds the verdict of the last reply of its kind that
      recorded one, and stays undefined until such a reply arrives. */
  lemma {:induction false} FlagsHoldLastVerdicts(events: seq<Event>)
    ensures After(events) == Flags(FlagOf(LastMappingVerdict(events)), FlagOf(LastRunVerdict(events)))
  {
    if events != [] {
      FlagsHoldLastVerdicts(events[..|events| - 1]);
    }
  }

  /** A dry run is sent after a sequence of replies exactly when the last
      recorded validation verdict does not say the mapping is invalid (a later
      valid verdict overrides an earlier invalid one), and a real run
      additionally needs that the last recorded processing verdict is not a
      failure; flags never set do not block. */
  lemma GateAfter(events: seq<Event>, isDryRun: bool)
    ensures Gate(After(events).isMappingValid, After(events).isDryRunPassed, isDryRun).Sent?
            <==> LastMappingVerdict(events) != Some(false)
                 && (isDryRun || LastRunVerdict(events) != Some(false))
  {
    FlagsHoldLastVerdicts(events);
  }
}
