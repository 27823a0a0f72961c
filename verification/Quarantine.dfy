/**
 * Quarantine bookkeeping against a ticket tracker: one run over the current
 * entries, and the protocol across runs that feed their entries forward.
 */
module Quarantine {
  import opened Options
  import opened Sorting

  datatype FailurePattern = PatternHealthy | PatternFlaky | PatternRegression | PatternPersistent

  datatype Entry = Entry(
    name: string, suite: string, job: string,
    quarantined: bool, classification: FailurePattern, flakeRate: real,
    totalRuns: int, failedRuns: int,
    regressionSHA: string, regressionPR: string,
    lastSeen: int, lastFailed: int,
    jiraKey: string)

  datatype JiraError = FilingFailed(name: string, text: string) | StatusFailed(key: string, text: string)

  const NUL: char := '\0'

  /** The composite identity of a test. */
  function TestKey(name: string, suite: string, job: string): string {
    if suite == "" && job == "" then name else suite + [NUL] + job + [NUL] + name
  }

  function KeyOf(e: Entry): string {
    TestKey(e.name, e.suite, e.job)
  }

  // ----- the tracker -----

  /** The ticket tracker: whatever it answers to the n-th request, and what it was asked. */
  class Jira {
    const create: nat -> Result<string, string>
    const status: nat -> Result<string, string>
    var filed: seq<Entry>
    var polled: seq<string>

    constructor (create: nat -> Result<string, string>, status: nat -> Result<string, string>)
      ensures this.create == create && this.status == status && filed == [] && polled == []
    {
      this.create := create;
      this.status := status;
      filed := [];
      polled := [];
    }

    method CreateBug(e: Entry) returns (r: Result<string, string>)
      modifies this
      ensures filed == old(filed) + [e] && polled == old(polled)
      ensures r == create(|old(filed)|)
    {
      r := create(|filed|);
      filed := filed + [e];
    }

    method GetStatus(key: string) returns (r: Result<string, string>)
      modifies this
      ensures polled == old(polled) + [key] && filed == old(filed)
      ensures r == status(|old(polled)|)
    {
      r := status(|polled|);
      polled := polled + [key];
    }
  }

  // ----- what one run does -----

  /** `indexPriorEntries`: the last quarantined entry of each key. */
  function Indexed(prior: seq<Entry>): map<string, Entry> {
    if prior == [] then map[]
    else
      var last := prior[|prior| - 1];
      var before := Indexed(prior[..|prior| - 1]);
      if last.quarantined then before[KeyOf(last) := last] else before
  }

  /** The ticket a quarantined test already has. */
  function PriorTicket(index: map<string, Entry>, e: Entry): string {
    if KeyOf(e) in index then index[KeyOf(e)].jiraKey else ""
  }

  predicate IsNew(index: map<string, Entry>, e: Entry) {
    e.quarantined && PriorTicket(index, e) == ""
  }

  function NewIn(index: map<string, Entry>): Entry -> bool {
    (e: Entry) => IsNew(index, e)
  }

  function Carried(index: map<string, Entry>, e: Entry): Entry {
    if e.quarantined && PriorTicket(index, e) != "" then e.(jiraKey := PriorTicket(index, e)) else e
  }

  function CarriedAll(index: map<string, Entry>, es: seq<Entry>): seq<Entry> {
    seq(|es|, i requires 0 <= i < |es| => Carried(index, es[i]))
  }

  /** The first entry of a key gets the ticket. */
  function WithTicket(es: seq<Entry>, key: string, ticket: string): seq<Entry> {
    if es == [] then []
    else if KeyOf(es[0]) == key then [es[0].(jiraKey := ticket)] + es[1..]
    else [es[0]] + WithTicket(es[1..], key, ticket)
  }

  datatype Filing = Filing(entries: seq<Entry>, newly: seq<Entry>, errors: seq<JiraError>)

  /** Filing `todo`, the tracker having answered `asked` requests before. */
  function Filed(es: seq<Entry>, todo: seq<Entry>, create: nat -> Result<string, string>, asked: nat): Filing
    decreases |todo|
  {
    if todo == [] then Filing(es, [], [])
    else
      var e := todo[0];
      match create(asked)
      case Err(text) =>
        var rest := Filed(es, todo[1..], create, asked + 1);
        Filing(rest.entries, [e] + rest.newly, [FilingFailed(e.name, text)] + rest.errors)
      case Ok(ticket) =>
        var rest := Filed(WithTicket(es, KeyOf(e), ticket), todo[1..], create, asked + 1);
        Filing(rest.entries, [e.(jiraKey := ticket)] + rest.newly, rest.errors)
  }

  function QuarantinedKeys(es: seq<Entry>): set<string> {
    set e | e in es && e.quarantined :: KeyOf(e)
  }

  predicate Resolves(status: string) {
    status == "Done" || status == "Closed" || status == "Resolved"
  }

  predicate AsksStatus(current: set<string>, e: Entry) {
    e.quarantined && e.jiraKey != "" && KeyOf(e) !in current
  }

  datatype Check = Check(unquarantined: seq<Entry>, errors: seq<JiraError>, polled: seq<string>)

  /** `checkResolved`. */
  function Checked(prior: seq<Entry>, current: set<string>, status: nat -> Result<string, string>, asked: nat): Check
    decreases |prior|
  {
    if prior == [] then Check([], [], [])
    else
      var e := prior[0];
      if !AsksStatus(current, e) then Checked(prior[1..], current, status, asked)
      else
        var rest := Checked(prior[1..], current, status, asked + 1);
        var polled := [e.jiraKey] + rest.polled;
        match status(asked)
        case Err(text) => Check(rest.unquarantined, [StatusFailed(e.jiraKey, text)] + rest.errors, polled)
        case Ok(s) =>
          if Resolves(s) then Check([e.(quarantined := false)] + rest.unquarantined, rest.errors, polled)
          else Check(rest.unquarantined, rest.errors, polled)
  }

  // ----- the loops -----

  method IndexPriorEntries(prior: seq<Entry>) returns (m: map<string, Entry>)
    ensures m == Indexed(prior)
  {
    m := map[];
    for i := 0 to |prior|
      invariant m == Indexed(prior[..i])
    {
      assert prior[..i + 1][..i] == prior[..i];
      if prior[i].quarantined {
        m := m[KeyOf(prior[i]) := prior[i]];
      }
    }
    assert prior[..|prior|] == prior;
  }

  method CheckResolved(jira: Jira, prior: seq<Entry>, entries: array<Entry>)
    returns (unquarantined: seq<Entry>, errors: seq<JiraError>)
    modifies jira
    ensures var c := Checked(prior, QuarantinedKeys(entries[..]), jira.status, |old(jira.polled)|);
            && unquarantined == c.unquarantined && errors == c.errors && jira.polled == old(jira.polled) + c.polled
    ensures jira.filed == old(jira.filed)
  {
    var current: set<string> := {};
    for i := 0 to entries.Length
      invariant current == QuarantinedKeys(entries[..i])
    {
      assert entries[..i + 1] == entries[..i] + [entries[i]];
      assert QuarantinedKeys(entries[..i + 1]) ==
             QuarantinedKeys(entries[..i]) + if entries[i].quarantined then {KeyOf(entries[i])} else {};
      if entries[i].quarantined {
        current := current + {KeyOf(entries[i])};
      }
    }
    assert entries[..entries.Length] == entries[..];
    unquarantined, errors := [], [];
    ghost var whole := Checked(prior, current, jira.status, |jira.polled|);
    for i := 0 to |prior|
      invariant var c := Checked(prior[i..], current, jira.status, |jira.polled|);
                && unquarantined + c.unquarantined == whole.unquarantined && errors + c.errors == whole.errors
                && jira.polled + c.polled == old(jira.polled) + whole.polled
      invariant jira.filed == old(jira.filed)
    {
      assert prior[i..][0] == prior[i] && prior[i..][1..] == prior[i + 1..];
      var e := prior[i];
      if !e.quarantined || e.jiraKey == "" {
        continue;
      }
      if KeyOf(e) in current {
        continue;
      }
      var status := jira.GetStatus(e.jiraKey);
      if status.Err? {
        errors := errors + [StatusFailed(e.jiraKey, status.error)];
        continue;
      }
      if Resolves(status.value) {
        unquarantined := unquarantined + [e.(quarantined := false)];
      }
    }
  }

  lemma {:induction false} WithTicketAt(es: seq<Entry>, key: string, ticket: string, j: nat)
    requires j < |es| && KeyOf(es[j]) == key && forall i | 0 <= i < j :: KeyOf(es[i]) != key
    ensures WithTicket(es, key, ticket) == es[j := es[j].(jiraKey := ticket)]
  {
    if j > 0 {
      WithTicketAt(es[1..], key, ticket, j - 1);
    }
  }

  lemma {:induction false} WithTicketNone(es: seq<Entry>, key: string, ticket: string)
    requires forall e | e in es :: KeyOf(e) != key
    ensures WithTicket(es, key, ticket) == es
  {
    if es != [] {
      WithTicketNone(es[1..], key, ticket);
    }
  }

  /** The inner loop: the first entry with the key is updated in place. */
  method SetTicket(entries: array<Entry>, key: string, ticket: string)
    modifies entries
    ensures entries[..] == WithTicket(old(entries[..]), key, ticket)
  {
    for j := 0 to entries.Length
      invariant entries[..] == old(entries[..])
      invariant forall i | 0 <= i < j :: KeyOf(entries[i]) != key
    {
      if KeyOf(entries[j]) == key {
        WithTicketAt(entries[..], key, ticket, j);
        entries[j] := entries[j].(jiraKey := ticket);
        return;
      }
    }
    WithTicketNone(entries[..], key, ticket);
  }

  method CarryTickets(index: map<string, Entry>, entries: array<Entry>) returns (newly: seq<Entry>)
    modifies entries
    ensures entries[..] == CarriedAll(index, old(entries[..]))
    ensures newly == Filter(NewIn(index), old(entries[..]))
  {
    newly := [];
    for i := 0 to entries.Length
      invariant forall j | 0 <= j < i :: entries[j] == Carried(index, old(entries[j]))
      invariant forall j | i <= j < entries.Length :: entries[j] == old(entries[j])
      invariant newly + Filter(NewIn(index), old(entries[..])[i..]) == Filter(NewIn(index), old(entries[..]))
    {
      assert old(entries[..])[i..][0] == entries[i] && old(entries[..])[i..][1..] == old(entries[..])[i + 1..];
      if !entries[i].quarantined {
        continue;
      }
      if PriorTicket(index, entries[i]) != "" {
        entries[i] := entries[i].(jiraKey := PriorTicket(index, entries[i]));
      } else {
        newly := newly + [entries[i]];
      }
    }
  }

  /** One answer of the tracker: what it files, and what is left to file. */
  lemma FiledStep(es: seq<Entry>, todo: seq<Entry>, create: nat -> Result<string, string>, asked: nat)
    requires todo != []
    ensures var f, e, rest := Filed(es, todo, create, asked), todo[0], todo[1..];
            && (create(asked).Err? ==>
                  var g := Filed(es, rest, create, asked + 1);
                  f == Filing(g.entries, [e] + g.newly, [FilingFailed(e.name, create(asked).error)] + g.errors))
            && (create(asked).Ok? ==>
                  var g := Filed(WithTicket(es, KeyOf(e), create(asked).value), rest, create, asked + 1);
                  f == Filing(g.entries, [e.(jiraKey := create(asked).value)] + g.newly, g.errors))
  {
  }

  lemma FiledNothing(es: seq<Entry>, create: nat -> Result<string, string>, asked: nat)
    ensures Filed(es, [], create, asked) == Filing(es, [], [])
  {
  }

  /** One pass of the filing loop. */
  method FileOne(jira: Jira, entries: array<Entry>, e: Entry) returns (filed: Entry, errors: seq<JiraError>)
    modifies jira, entries
    ensures jira.filed == old(jira.filed) + [e] && jira.polled == old(jira.polled)
    ensures match jira.create(|old(jira.filed)|)
            case Err(text) => filed == e && errors == [FilingFailed(e.name, text)] && entries[..] == old(entries[..])
            case Ok(ticket) => filed == e.(jiraKey := ticket) && errors == []
                               && entries[..] == WithTicket(old(entries[..]), KeyOf(e), ticket)
  {
    var created := jira.CreateBug(e);
    if created.Err? {
      return e, [FilingFailed(e.name, created.error)];
    }
    SetTicket(entries, KeyOf(e), created.value);
    return e.(jiraKey := created.value), [];
  }

  method FileNew(jira: Jira, entries: array<Entry>, todo: seq<Entry>)
    returns (newly: seq<Entry>, errors: seq<JiraError>)
    modifies jira, entries
    ensures Filing(entries[..], newly, errors) == Filed(old(entries[..]), todo, jira.create, |old(jira.filed)|)
    ensures jira.filed == old(jira.filed) + todo && jira.polled == old(jira.polled)
  {
    hide WithTicket, KeyOf, Filed;
    newly, errors := [], [];
    ghost var whole := Filed(entries[..], todo, jira.create, |jira.filed|);
    assert todo[0..] == todo && todo[|todo|..] == [];
    for i := 0 to |todo|
      invariant jira.filed == old(jira.filed) + todo[..i] && jira.polled == old(jira.polled)
      invariant var f := Filed(entries[..], todo[i..], jira.create, |jira.filed|);
                f.entries == whole.entries && newly + f.newly == whole.newly && errors + f.errors == whole.errors
    {
      assert todo[i..][0] == todo[i] && todo[i..][1..] == todo[i + 1..];
      assert todo[..i + 1] == todo[..i] + [todo[i]];
      FiledStep(entries[..], todo[i..], jira.create, |jira.filed|);
      var filed, failed := FileOne(jira, entries, todo[i]);
      newly, errors := newly + [filed], errors + failed;
    }
    FiledNothing(entries[..], jira.create, |jira.filed|);
    assert todo[..|todo|] == todo;
  }

  /** One run's outcome, as a function of its inputs and the tracker's answers. */
  datatype Outcome = Outcome(
    entries: seq<Entry>,
    newly: seq<Entry>,
    unquarantined: seq<Entry>,
    errors: seq<JiraError>,
    attempts: seq<Entry>)

  /** The tracker as one run meets it. */
  datatype Tracker = Tracker(
    create: nat -> Result<string, string>, created: nat,
    status: nat -> Result<string, string>, polled: nat)

  function Reconciled(es: seq<Entry>, prior: seq<Entry>, t: Option<Tracker>): Outcome {
    var index := Indexed(prior);
    var carried, todo := CarriedAll(index, es), Filter(NewIn(index), es);
    if t.None? then Outcome(carried, todo, [], [], [])
    else
      var f := Filed(carried, todo, t.value.create, t.value.created);
      var c := Checked(prior, QuarantinedKeys(f.entries), t.value.status, t.value.polled);
      Outcome(f.entries, f.newly, c.unquarantined, f.errors + c.errors, todo)
  }

  method ReconcileQuarantine(jira: Jira?, prior: seq<Entry>, entries: array<Entry>)
    returns (newly: seq<Entry>, unquarantined: seq<Entry>, errors: seq<JiraError>)
    modifies jira, entries
    ensures var t := if jira == null then None
                     else Some(Tracker(jira.create, |old(jira.filed)|, jira.status, |old(jira.polled)|));
            var o := Reconciled(old(entries[..]), prior, t);
            && entries[..] == o.entries && newly == o.newly && unquarantined == o.unquarantined && errors == o.errors
            && (jira != null ==> jira.filed == old(jira.filed) + o.attempts)
  {
    var index := IndexPriorEntries(prior);
    newly := CarryTickets(index, entries);
    unquarantined, errors := [], [];
    if jira != null {
      newly, errors := FileNew(jira, entries, newly);
      var resolveErrors: seq<JiraError>;
      unquarantined, resolveErrors := CheckResolved(jira, prior, entries);
      errors := errors + resolveErrors;
    }
  }
}
