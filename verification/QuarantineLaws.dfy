/**
 * The ticket protocol: identities, one run, and runs that feed their entries
 * forward as the next run's prior entries.
 */
module QuarantineLaws {
  import opened Options
  import opened Sorting
  import opened Quarantine

  // ----- identities -----

  predicate NulFree(name: string, suite: string, job: string) {
    NUL !in name && NUL !in suite && NUL !in job
  }

  lemma SplitAtFirstNul(a: string, x: string, b: string, y: string)
    requires NUL !in a && NUL !in b && a + [NUL] + x == b + [NUL] + y
    ensures a == b && x == y
  {
    var s := a + [NUL] + x;
    assert s[|a|] == NUL && s[|b|] == NUL;
    assert forall i | 0 <= i < |a| :: s[i] == a[i] && s[i] != NUL;
    assert forall i | 0 <= i < |b| :: s[i] == b[i] && s[i] != NUL;
    assert |a| == |b|;
    assert a == s[..|a|] && b == s[..|b|];
    assert x == s[|a| + 1..] && y == s[|b| + 1..];
  }

  /** Distinct tests have distinct keys as long as no part holds the separator. */
  lemma TestKeyInjective(n1: string, s1: string, j1: string, n2: string, s2: string, j2: string)
    requires NulFree(n1, s1, j1) && NulFree(n2, s2, j2)
    ensures TestKey(n1, s1, j1) == TestKey(n2, s2, j2) <==> n1 == n2 && s1 == s2 && j1 == j2
  {
    var k1, k2 := TestKey(n1, s1, j1), TestKey(n2, s2, j2);
    if s1 != "" || j1 != "" {
      assert k1[|s1|] == NUL && k1 == s1 + [NUL] + (j1 + [NUL] + n1);
    }
    if s2 != "" || j2 != "" {
      assert k2[|s2|] == NUL && k2 == s2 + [NUL] + (j2 + [NUL] + n2);
    }
    if k1 == k2 && (s1 != "" || j1 != "") {
      SplitAtFirstNul(s1, j1 + [NUL] + n1, s2, j2 + [NUL] + n2);
      SplitAtFirstNul(j1, n1, j2, n2);
    }
  }

  /** The key of an entry: suite, job and name around separators, or the name alone. */
  lemma KeyOfSays(e: Entry)
    ensures e.suite == "" && e.job == "" ==> KeyOf(e) == e.name
    ensures e.suite != "" || e.job != "" ==> KeyOf(e) == e.suite + "\0" + e.job + "\0" + e.name
  {
    assert [NUL] == "\0";
  }

  /** With the separator in a name two different tests do collide. */
  lemma NulMakesKeysCollide(suite: string, job: string, name: string)
    requires suite != "" || job != ""
    ensures TestKey(suite + [NUL] + job + [NUL] + name, "", "") == TestKey(name, suite, job)
    ensures (suite + [NUL] + job + [NUL] + name, "", "") != (name, suite, job)
  {
    assert |suite + [NUL] + job + [NUL] + name| > |name|;
  }

  ghost predicate DistinctKeys(es: seq<Entry>) {
    forall i, j | 0 <= i < j < |es| :: KeyOf(es[i]) != KeyOf(es[j])
  }

  // ----- the prior index -----

  /** The last quarantined entry of a key. */
  ghost predicate IsLastOf(prior: seq<Entry>, key: string, i: int) {
    && 0 <= i < |prior| && prior[i].quarantined && KeyOf(prior[i]) == key
    && forall j | i < j < |prior| && prior[j].quarantined :: KeyOf(prior[j]) != key
  }

  lemma {:induction false} IndexedIsLast(prior: seq<Entry>)
    ensures forall e | e in prior && e.quarantined :: KeyOf(e) in Indexed(prior)
    ensures forall k | k in Indexed(prior) :: exists i :: IsLastOf(prior, k, i) && prior[i] == Indexed(prior)[k]
  {
    hide KeyOf;
    if prior != [] {
      var n := |prior| - 1;
      var front := prior[..n];
      IndexedIsLast(front);
      assert prior == front + [prior[n]];
      assert Indexed(prior) ==
             if prior[n].quarantined then Indexed(front)[KeyOf(prior[n]) := prior[n]] else Indexed(front);
      forall k | k in Indexed(prior) ensures exists i :: IsLastOf(prior, k, i) && prior[i] == Indexed(prior)[k] {
        if prior[n].quarantined && k == KeyOf(prior[n]) {
          assert IsLastOf(prior, k, n);
        } else {
          assert k in Indexed(front);
          var i :| IsLastOf(front, k, i) && front[i] == Indexed(front)[k];
          assert IsLastOf(prior, k, i);
        }
      }
    }
  }

  /** `es` lists a quarantined test of this key, with this ticket. */
  ghost predicate Holds(es: seq<Entry>, key: string, ticket: string) {
    exists e | e in es :: e.quarantined && KeyOf(e) == key && e.jiraKey == ticket
  }

  /** With distinct keys the index answers exactly what the prior run recorded. */
  lemma PriorTicketIsHeld(prior: seq<Entry>, e: Entry, ticket: string)
    requires DistinctKeys(prior) && ticket != ""
    ensures PriorTicket(Indexed(prior), e) == ticket <==> Holds(prior, KeyOf(e), ticket)
  {
    IndexedIsLast(prior);
    var key := KeyOf(e);
    if p :| p in prior && p.quarantined && KeyOf(p) == key && p.jiraKey == ticket {
      assert key in Indexed(prior);
      var i :| IsLastOf(prior, key, i) && prior[i] == Indexed(prior)[key];
      var j :| 0 <= j < |prior| && prior[j] == p;
      assert i == j;
    }
  }

  // ----- filing -----

  lemma {:induction false} WithTicketEach(es: seq<Entry>, key: string, ticket: string)
    requires DistinctKeys(es)
    ensures |WithTicket(es, key, ticket)| == |es|
    ensures forall i | 0 <= i < |es| ::
              WithTicket(es, key, ticket)[i] == if KeyOf(es[i]) == key then es[i].(jiraKey := ticket) else es[i]
    ensures DistinctKeys(WithTicket(es, key, ticket))
  {
    hide TestKey;
    if es != [] {
      WithTicketEach(es[1..], key, ticket);
      var r := WithTicket(es, key, ticket);
      if KeyOf(es[0]) == key {
        assert forall i | 0 < i < |es| :: r[i] == es[i];
      } else {
        assert forall i | 0 < i < |es| :: r[i] == WithTicket(es[1..], key, ticket)[i - 1] && es[1..][i - 1] == es[i];
      }
      assert forall i | 0 <= i < |es| :: KeyOf(r[i]) == KeyOf(es[i]);
    }
  }

  /** An entry whose test is not filed keeps what it has. */
  lemma {:induction false} FiledSparesOthers(
      es: seq<Entry>, todo: seq<Entry>, create: nat -> Result<string, string>, asked: nat, i: nat)
    requires DistinctKeys(es) && i < |es| && forall e | e in todo :: KeyOf(e) != KeyOf(es[i])
    ensures |Filed(es, todo, create, asked).entries| == |es|
    ensures Filed(es, todo, create, asked).entries[i] == es[i]
    decreases |todo|
  {
    if todo != [] {
      match create(asked)
      case Err(_) =>
        FiledSparesOthers(es, todo[1..], create, asked + 1, i);
      case Ok(ticket) =>
        WithTicketEach(es, KeyOf(todo[0]), ticket);
        FiledSparesOthers(WithTicket(es, KeyOf(todo[0]), ticket), todo[1..], create, asked + 1, i);
    }
  }

  /** The k-th test filed gets the tracker's k-th answer: a ticket, or an error on record. */
  lemma {:induction false} FiledAnswers(
      es: seq<Entry>, todo: seq<Entry>, create: nat -> Result<string, string>, asked: nat, i: nat, k: nat)
    requires DistinctKeys(es) && DistinctKeys(todo)
    requires i < |es| && k < |todo| && KeyOf(todo[k]) == KeyOf(es[i])
    ensures var f := Filed(es, todo, create, asked);
            && |f.entries| == |es|
            && (match create(asked + k)
                case Ok(ticket) => f.entries[i] == es[i].(jiraKey := ticket)
                case Err(text) => f.entries[i] == es[i] && FilingFailed(todo[k].name, text) in f.errors)
    decreases |todo|
  {
    hide WithTicket, TestKey;
    var next := match create(asked) case Err(_) => es case Ok(ticket) => WithTicket(es, KeyOf(todo[0]), ticket);
    if create(asked).Ok? {
      WithTicketEach(es, KeyOf(todo[0]), create(asked).value);
    }
    assert forall j | 1 <= j < |todo| :: todo[1..][j - 1] == todo[j];
    if k == 0 {
      forall e | e in todo[1..] ensures KeyOf(e) != KeyOf(next[i]) {
        var j :| 0 <= j < |todo[1..]| && todo[1..][j] == e;
        assert e == todo[j + 1];
      }
      FiledSparesOthers(next, todo[1..], create, asked + 1, i);
    } else {
      assert KeyOf(todo[0]) != KeyOf(es[i]);
      FiledAnswers(next, todo[1..], create, asked + 1, i, k - 1);
    }
  }

  lemma {:induction false} FilterKeepsDistinct(p: Entry -> bool, es: seq<Entry>)
    requires DistinctKeys(es)
    ensures DistinctKeys(Filter(p, es))
  {
    if es != [] {
      FilterKeepsDistinct(p, es[1..]);
      FilterMembers(p, es[1..]);
      var rest := Filter(p, es[1..]);
      forall j | 0 <= j < |rest| ensures KeyOf(rest[j]) != KeyOf(es[0]) {
        assert rest[j] in es[1..];
      }
    }
  }

  // ----- one run -----

  /** What the tracker is asked to file: each quarantined test without a prior ticket, once. */
  lemma OneAttemptEach(es: seq<Entry>, prior: seq<Entry>, t: Tracker)
    requires DistinctKeys(es) && DistinctKeys(prior)
    ensures DistinctKeys(Reconciled(es, prior, Some(t)).attempts)
    ensures forall e :: e in Reconciled(es, prior, Some(t)).attempts <==>
                        && e in es && e.quarantined
                        && !exists p | p in prior :: p.quarantined && KeyOf(p) == KeyOf(e) && p.jiraKey != ""
  {
    var index := Indexed(prior);
    FilterKeepsDistinct(NewIn(index), es);
    FilterMembers(NewIn(index), es);
    forall e
      ensures PriorTicket(index, e) == "" <==>
              !exists p | p in prior :: p.quarantined && KeyOf(p) == KeyOf(e) && p.jiraKey != ""
    {
      if PriorTicket(index, e) != "" {
        PriorTicketIsHeld(prior, e, PriorTicket(index, e));
      }
      if p :| p in prior && p.quarantined && KeyOf(p) == KeyOf(e) && p.jiraKey != "" {
        assert Holds(prior, KeyOf(e), p.jiraKey);
        PriorTicketIsHeld(prior, e, p.jiraKey);
      }
    }
  }

  lemma CarriedKeepsKeys(index: map<string, Entry>, es: seq<Entry>)
    requires DistinctKeys(es)
    ensures DistinctKeys(CarriedAll(index, es))
  {
    assert forall i | 0 <= i < |es| :: KeyOf(CarriedAll(index, es)[i]) == KeyOf(es[i]);
  }

  lemma EntryFate(es: seq<Entry>, prior: seq<Entry>, t: Option<Tracker>, i: nat)
    requires DistinctKeys(es) && i < |es|
    ensures var o, held := Reconciled(es, prior, t), PriorTicket(Indexed(prior), es[i]);
            && |o.entries| == |es|
            && (!es[i].quarantined ==> o.entries[i] == es[i])
            && (es[i].quarantined && held != "" ==> o.entries[i] == es[i].(jiraKey := held))
            && (es[i].quarantined && held == "" && t.None? ==> o.entries[i] == es[i])
  {
    var index := Indexed(prior);
    var todo := Filter(NewIn(index), es);
    CarriedKeepsKeys(index, es);
    if t.Some? {
      if IsNew(index, es[i]) {
        FilterMembers(NewIn(index), es);
        FilterKeepsDistinct(NewIn(index), es);
        assert es[i] in todo;
        var k :| 0 <= k < |todo| && todo[k] == es[i];
        FiledAnswers(CarriedAll(index, es), todo, t.value.create, t.value.created, i, k);
      } else {
        NotFiled(es, index, i);
        FiledSparesOthers(CarriedAll(index, es), todo, t.value.create, t.value.created, i);
      }
    }
  }

  lemma NotFiled(es: seq<Entry>, index: map<string, Entry>, i: nat)
    requires DistinctKeys(es) && i < |es| && !IsNew(index, es[i])
    ensures forall e | e in Filter(NewIn(index), es) :: KeyOf(e) != KeyOf(es[i])
  {
    FilterMembers(NewIn(index), es);
    forall e | e in Filter(NewIn(index), es) ensures KeyOf(e) != KeyOf(es[i]) {
      var j :| 0 <= j < |es| && es[j] == e;
      assert j != i;
    }
  }

  /** A newly quarantined test ends with the tracker's ticket or with an error on record. */
  lemma NewTestAnswered(es: seq<Entry>, prior: seq<Entry>, t: Tracker, i: nat) returns (k: nat)
    requires DistinctKeys(es) && i < |es| && IsNew(Indexed(prior), es[i])
    ensures var o := Reconciled(es, prior, Some(t));
            && k < |o.attempts| && o.attempts[k] == es[i] && |o.entries| == |es|
            && (match t.create(t.created + k)
                case Ok(ticket) => o.entries[i] == es[i].(jiraKey := ticket)
                case Err(text) => o.entries[i] == es[i] && FilingFailed(es[i].name, text) in o.errors)
  {
    var index := Indexed(prior);
    var todo := Filter(NewIn(index), es);
    FilterMembers(NewIn(index), es);
    FilterKeepsDistinct(NewIn(index), es);
    CarriedKeepsKeys(index, es);
    assert es[i] in todo;
    k :| 0 <= k < |todo| && todo[k] == es[i];
    FiledAnswers(CarriedAll(index, es), todo, t.create, t.created, i, k);
  }

  /** The tracker's answer to the k-th filing of the run. */
  function AnswerTo(t: Tracker, k: nat): Result<string, string> {
    t.create(t.created + k)
  }

  /** The tracker refused to file this very entry. */
  ghost predicate Refused(o: Outcome, t: Tracker, e: Entry) {
    exists k | 0 <= k < |o.attempts| :: o.attempts[k] == e && AnswerTo(t, k).Err?
  }

  ghost predicate AllEnd(es: seq<Entry>, o: Outcome, t: Tracker)
    requires |o.entries| == |es|
  {
    forall i | 0 <= i < |es| && es[i].quarantined :: o.entries[i].jiraKey != "" || Refused(o, t, es[i])
  }

  predicate NoEmptyAnswer(o: Outcome, t: Tracker) {
    forall k | 0 <= k < |o.attempts| :: AnswerTo(t, k) != Ok("")
  }

  /**
   * Every quarantined test ends with a ticket, or with its own filing refused,
   * if and only if no request of the run is answered with an empty ticket.
   */
  lemma EndsWithTicketOrRefusalExactlyWhen(es: seq<Entry>, prior: seq<Entry>, t: Tracker)
    requires DistinctKeys(es)
    ensures |Reconciled(es, prior, Some(t)).entries| == |es|
    ensures AllEnd(es, Reconciled(es, prior, Some(t)), t) <==> NoEmptyAnswer(Reconciled(es, prior, Some(t)), t)
  {
    var o := Reconciled(es, prior, Some(t));
    OnlyTicketsChange(es, prior, Some(t));
    forall i | 0 <= i < |es| && es[i].quarantined
      ensures (o.entries[i].jiraKey != "" || Refused(o, t, es[i])) <==>
              forall k | 0 <= k < |o.attempts| && o.attempts[k] == es[i] :: AnswerTo(t, k) != Ok("")
    {
      TestEnds(es, prior, t, i);
    }
    forall k | 0 <= k < |o.attempts| ensures exists i :: 0 <= i < |es| && es[i].quarantined && es[i] == o.attempts[k] {
      FilterMembers(NewIn(Indexed(prior)), es);
      assert o.attempts[k] in es;
    }
    hide Reconciled, Refused;
    if forall i | 0 <= i < |es| && es[i].quarantined :: o.entries[i].jiraKey != "" || Refused(o, t, es[i]) {
      forall k | 0 <= k < |o.attempts| ensures AnswerTo(t, k) != Ok("") {
        var i :| 0 <= i < |es| && es[i].quarantined && es[i] == o.attempts[k];
      }
    }
  }

  lemma TestEnds(es: seq<Entry>, prior: seq<Entry>, t: Tracker, i: nat)
    requires DistinctKeys(es) && i < |es| && es[i].quarantined
    ensures var o := Reconciled(es, prior, Some(t));
            && |o.entries| == |es|
            && ((o.entries[i].jiraKey != "" || Refused(o, t, es[i])) <==>
                forall k | 0 <= k < |o.attempts| && o.attempts[k] == es[i] :: AnswerTo(t, k) != Ok(""))
  {
    var o := Reconciled(es, prior, Some(t));
    EntryFate(es, prior, Some(t), i);
    FilterMembers(NewIn(Indexed(prior)), es);
    if IsNew(Indexed(prior), es[i]) {
      var k := NewTestAnswered(es, prior, t, i);
      FilterKeepsDistinct(NewIn(Indexed(prior)), es);
      assert forall j | 0 <= j < |o.attempts| && o.attempts[j] == es[i] :: j == k;
    } else {
      assert es[i] !in o.attempts;
    }
  }

  /** A refusal is on record, and only an entry's own error counts. */
  lemma RefusalIsRecorded(es: seq<Entry>, prior: seq<Entry>, t: Tracker, i: nat)
    requires DistinctKeys(es) && i < |es| && Refused(Reconciled(es, prior, Some(t)), t, es[i])
    ensures exists text :: FilingFailed(es[i].name, text) in Reconciled(es, prior, Some(t)).errors
  {
    var o := Reconciled(es, prior, Some(t));
    FilterMembers(NewIn(Indexed(prior)), es);
    FilterKeepsDistinct(NewIn(Indexed(prior)), es);
    var k :| 0 <= k < |o.attempts| && o.attempts[k] == es[i] && AnswerTo(t, k).Err?;
    assert o.attempts[k] in o.attempts;
    var j := NewTestAnswered(es, prior, t, i);
    assert j == k;
  }

  /** The shortest run that loses a test: one new test, one empty answer. */
  lemma EmptyTicketIsLost(e: Entry, t: Tracker)
    requires e.quarantined && e.jiraKey == ""
    ensures var o := Reconciled([e], [], Some(t));
            (o.entries == [e] && o.errors == []) <==> t.create(t.created) == Ok("")
  {
    var todo := Filter(NewIn(map[]), [e]);
    assert todo == [e] by {
      FilterAll(NewIn(map[]), [e]);
    }
    assert CarriedAll(map[], [e]) == [e];
    assert todo[1..] == [] && [e][1..] == [];
    var f := Filed([e], todo, t.create, t.created);
    match t.create(t.created)
    case Err(text) =>
      assert f.errors[0] == FilingFailed(e.name, text);
    case Ok(ticket) =>
      var one := WithTicket([e], KeyOf(e), ticket);
      assert one == [e.(jiraKey := ticket)];
      assert Filed(one, todo[1..], t.create, t.created + 1) == Filing(one, [], []);
      assert f.entries == one;
      assert f.entries[0].jiraKey == ticket;
  }

  /** A run changes tickets and nothing else; its quarantined tests are those it was given. */
  lemma OnlyTicketsChange(es: seq<Entry>, prior: seq<Entry>, t: Option<Tracker>)
    requires DistinctKeys(es)
    ensures var o := Reconciled(es, prior, t);
            && |o.entries| == |es| && DistinctKeys(o.entries)
            && (forall i | 0 <= i < |es| :: o.entries[i].(jiraKey := "") == es[i].(jiraKey := ""))
            && QuarantinedKeys(o.entries) == QuarantinedKeys(es)
  {
    var o := Reconciled(es, prior, t);
    if es == [] {
      assert Filter(NewIn(Indexed(prior)), es) == [];
      assert o.entries == [];
    } else {
      EntryFate(es, prior, t, 0);
    }
    forall i | 0 <= i < |es| ensures o.entries[i].(jiraKey := "") == es[i].(jiraKey := "") {
      EntryFate(es, prior, t, i);
      if t.Some? && IsNew(Indexed(prior), es[i]) {
        var k := NewTestAnswered(es, prior, t.value, i);
      }
    }
    assert forall i | 0 <= i < |es| ::
        KeyOf(o.entries[i]) == KeyOf(es[i]) && o.entries[i].quarantined == es[i].quarantined;
    forall k ensures k in QuarantinedKeys(o.entries) <==> k in QuarantinedKeys(es) {
      if k in QuarantinedKeys(o.entries) {
        var i :| 0 <= i < |es| && o.entries[i].quarantined && KeyOf(o.entries[i]) == k;
        assert es[i].quarantined && KeyOf(es[i]) == k;
      }
      if k in QuarantinedKeys(es) {
        var i :| 0 <= i < |es| && es[i].quarantined && KeyOf(es[i]) == k;
        assert o.entries[i].quarantined && KeyOf(o.entries[i]) == k;
      }
    }
  }

  lemma {:induction false} CheckedReleases(
      prior: seq<Entry>, current: set<string>, status: nat -> Result<string, string>, asked: nat)
    ensures var c := Checked(prior, current, status, asked);
            && c.polled == Keys(Filter((e: Entry) => AsksStatus(current, e), prior))
            && (forall u | u in c.unquarantined ::
                  exists p | p in prior :: AsksStatus(current, p) && u == p.(quarantined := false))
    ensures (forall n :: status(n).Ok? && Resolves(status(n).value)) ==>
              |Checked(prior, current, status, asked).unquarantined| == |Checked(prior, current, status, asked).polled|
    decreases |prior|
  {
    if prior != [] {
      var e := prior[0];
      CheckedReleases(prior[1..], current, status, if AsksStatus(current, e) then asked + 1 else asked);
      var c := Checked(prior, current, status, asked);
      var asking := (x: Entry) => AsksStatus(current, x);
      assert AsksStatus(current, e) ==>
        Filter(asking, prior) == [e] + Filter(asking, prior[1..])
        && Keys(Filter(asking, prior))[1..] == Keys(Filter(asking, prior[1..]));
      forall u | u in c.unquarantined
        ensures exists p | p in prior :: AsksStatus(current, p) && u == p.(quarantined := false)
      {
        if !(AsksStatus(current, e) && u == e.(quarantined := false)) {
          var p :| p in prior[1..] && AsksStatus(current, p) && u == p.(quarantined := false);
          assert p in prior;
        } else {
          assert e in prior;
        }
      }
    }
  }

  function Keys(es: seq<Entry>): seq<string> {
    seq(|es|, i requires 0 <= i < |es| => es[i].jiraKey)
  }

  // ----- a run, from what went in -----

  /** The filing of `e` was refused, and this is the error on record. */
  ghost predicate FilingError(e: Entry, answer: Result<string, string>, x: JiraError) {
    answer.Err? && x == FilingFailed(e.name, answer.error)
  }

  ghost predicate StatusError(e: Entry, answer: Result<string, string>, x: JiraError) {
    answer.Err? && x == StatusFailed(e.jiraKey, answer.error)
  }

  /** The ticket of `e` is closed, and `u` is what its release reads. */
  ghost predicate Releases(e: Entry, answer: Result<string, string>, u: Entry) {
    answer in {Ok("Done"), Ok("Closed"), Ok("Resolved")} && u == e.(quarantined := false)
  }

  /** What is left to file after the first answer. */
  function Next(es: seq<Entry>, e: Entry, answer: Result<string, string>): seq<Entry> {
    match answer
    case Err(_) => es
    case Ok(ticket) => WithTicket(es, KeyOf(e), ticket)
  }

  /** The k-th test filed is reported with the tracker's k-th answer. */
  lemma {:induction false} FiledLists(
      es: seq<Entry>, todo: seq<Entry>, create: nat -> Result<string, string>, asked: nat, k: nat)
    requires k < |todo|
    ensures var f := Filed(es, todo, create, asked);
            && |f.newly| == |todo|
            && f.newly[k] == match create(asked + k)
                             case Ok(ticket) => todo[k].(jiraKey := ticket)
                             case Err(_) => todo[k]
    decreases |todo|
  {
    hide WithTicket, TestKey;
    var next := Next(es, todo[0], create(asked));
    if k > 0 {
      FiledLists(next, todo[1..], create, asked + 1, k - 1);
    } else if |todo| > 1 {
      FiledLists(next, todo[1..], create, asked + 1, 0);
    }
  }

  /** And its errors are those of the refused filings. */
  lemma {:induction false} FiledErrors(
      es: seq<Entry>, todo: seq<Entry>, create: nat -> Result<string, string>, asked: nat, x: JiraError)
    ensures x in Filed(es, todo, create, asked).errors <==>
            exists k | 0 <= k < |todo| :: FilingError(todo[k], create(asked + k), x)
    decreases |todo|
  {
    hide WithTicket, TestKey;
    if todo != [] {
      FiledErrors(Next(es, todo[0], create(asked)), todo[1..], create, asked + 1, x);
      ErrorsStep(todo, create, asked, x);
    }
  }

  lemma ErrorsStep(todo: seq<Entry>, answers: nat -> Result<string, string>, asked: nat, x: JiraError)
    requires todo != []
    ensures (exists k | 0 <= k < |todo| :: FilingError(todo[k], answers(asked + k), x)) <==>
            || FilingError(todo[0], answers(asked), x)
            || exists k | 0 <= k < |todo| - 1 :: FilingError(todo[1..][k], answers(asked + 1 + k), x)
  {
    if FilingError(todo[0], answers(asked), x) {
      assert FilingError(todo[0], answers(asked + 0), x);
    }
    if k :| 0 < k < |todo| && FilingError(todo[k], answers(asked + k), x) {
      assert FilingError(todo[1..][k - 1], answers(asked + 1 + (k - 1)), x);
    }
    if k :| 0 <= k < |todo| - 1 && FilingError(todo[1..][k], answers(asked + 1 + k), x) {
      assert FilingError(todo[k + 1], answers(asked + (k + 1)), x);
    }
  }

  function Asking(prior: seq<Entry>, current: set<string>): seq<Entry> {
    Filter((e: Entry) => AsksStatus(current, e), prior)
  }

  lemma CheckedNothing(current: set<string>, status: nat -> Result<string, string>, asked: nat)
    ensures Checked([], current, status, asked) == Check([], [], []) && Asking([], current) == []
  {
  }

  /** Some question is answered by a release of this test. */
  ghost predicate SomeReleases(todo: seq<Entry>, answers: nat -> Result<string, string>, asked: nat, u: Entry) {
    exists k | 0 <= k < |todo| :: Releases(todo[k], answers(asked + k), u)
  }

  lemma ReleasesStep(todo: seq<Entry>, answers: nat -> Result<string, string>, asked: nat, u: Entry)
    ensures !SomeReleases([], answers, asked, u)
    ensures todo != [] ==>
              (SomeReleases(todo, answers, asked, u) <==>
               Releases(todo[0], answers(asked), u) || SomeReleases(todo[1..], answers, asked + 1, u))
  {
    hide Releases;
    assert answers(asked + 0) == answers(asked);
    if k :| 0 < k < |todo| && Releases(todo[k], answers(asked + k), u) {
      assert Releases(todo[1..][k - 1], answers(asked + 1 + (k - 1)), u);
    }
    if k :| 0 <= k < |todo| - 1 && Releases(todo[1..][k], answers(asked + 1 + k), u) {
      assert Releases(todo[k + 1], answers(asked + (k + 1)), u);
    }
  }

  lemma CheckedReleasesExactlyStep(
      prior: seq<Entry>, current: set<string>, status: nat -> Result<string, string>, asked: nat, u: Entry)
    requires prior != []
    ensures var e, asks := prior[0], AsksStatus(current, prior[0]);
            && Asking(prior, current) == (if asks then [e] else []) + Asking(prior[1..], current)
            && (u in Checked(prior, current, status, asked).unquarantined <==>
                || (asks && Releases(e, status(asked), u))
                || u in Checked(prior[1..], current, status, if asks then asked + 1 else asked).unquarantined)
  {
    hide AsksStatus, KeyOf;
  }

  /** Exactly the tests whose ticket the tracker calls closed are released. */
  lemma {:induction false} CheckedReleasesExactly(
      prior: seq<Entry>, current: set<string>, status: nat -> Result<string, string>, asked: nat, u: Entry)
    ensures u in Checked(prior, current, status, asked).unquarantined <==>
            SomeReleases(Asking(prior, current), status, asked, u)
    decreases |prior|
  {
    hide Checked, Releases, SomeReleases, AsksStatus, Asking;
    var todo := Asking(prior, current);
    ReleasesStep(todo, status, asked, u);
    if prior == [] {
      CheckedNothing(current, status, asked);
    } else {
      CheckedReleasesExactlyStep(prior, current, status, asked, u);
      if AsksStatus(current, prior[0]) {
        CheckedReleasesExactly(prior[1..], current, status, asked + 1, u);
        assert todo != [] && todo[1..] == Asking(prior[1..], current);
      } else {
        CheckedReleasesExactly(prior[1..], current, status, asked, u);
        assert todo == Asking(prior[1..], current);
      }
    }
  }

  /** Some question is refused, with this error. */
  ghost predicate SomeStatusError(todo: seq<Entry>, answers: nat -> Result<string, string>, asked: nat, x: JiraError) {
    exists k | 0 <= k < |todo| :: StatusError(todo[k], answers(asked + k), x)
  }

  lemma StatusErrorsStep(todo: seq<Entry>, answers: nat -> Result<string, string>, asked: nat, x: JiraError)
    ensures !SomeStatusError([], answers, asked, x)
    ensures todo != [] ==>
              (SomeStatusError(todo, answers, asked, x) <==>
               StatusError(todo[0], answers(asked), x) || SomeStatusError(todo[1..], answers, asked + 1, x))
  {
    hide StatusError;
    assert answers(asked + 0) == answers(asked);
    if k :| 0 < k < |todo| && StatusError(todo[k], answers(asked + k), x) {
      assert StatusError(todo[1..][k - 1], answers(asked + 1 + (k - 1)), x);
    }
    if k :| 0 <= k < |todo| - 1 && StatusError(todo[1..][k], answers(asked + 1 + k), x) {
      assert StatusError(todo[k + 1], answers(asked + (k + 1)), x);
    }
  }

  lemma CheckedErrorsStep(
      prior: seq<Entry>, current: set<string>, status: nat -> Result<string, string>, asked: nat, x: JiraError)
    requires prior != []
    ensures var e, asks := prior[0], AsksStatus(current, prior[0]);
            && Asking(prior, current) == (if asks then [e] else []) + Asking(prior[1..], current)
            && (x in Checked(prior, current, status, asked).errors <==>
                || (asks && StatusError(e, status(asked), x))
                || x in Checked(prior[1..], current, status, if asks then asked + 1 else asked).errors)
  {
    hide AsksStatus, KeyOf;
  }

  /** And exactly the questions the tracker refused to answer are errors. */
  lemma {:induction false} CheckedErrors(
      prior: seq<Entry>, current: set<string>, status: nat -> Result<string, string>, asked: nat, x: JiraError)
    ensures x in Checked(prior, current, status, asked).errors <==>
            SomeStatusError(Asking(prior, current), status, asked, x)
    decreases |prior|
  {
    hide Checked, StatusError, SomeStatusError, AsksStatus, Asking;
    var todo := Asking(prior, current);
    StatusErrorsStep(todo, status, asked, x);
    if prior == [] {
      CheckedNothing(current, status, asked);
    } else {
      CheckedErrorsStep(prior, current, status, asked, x);
      if AsksStatus(current, prior[0]) {
        CheckedErrors(prior[1..], current, status, asked + 1, x);
        assert todo != [] && todo[1..] == Asking(prior[1..], current);
      } else {
        CheckedErrors(prior[1..], current, status, asked, x);
        assert todo == Asking(prior[1..], current);
      }
    }
  }

  /** The ticket under which a test was quarantined last, "" when there is none. */
  ghost predicate LastTicketIs(prior: seq<Entry>, key: string, ticket: string) {
    if exists i :: IsLastOf(prior, key, i) then exists i :: IsLastOf(prior, key, i) && prior[i].jiraKey == ticket
    else ticket == ""
  }

  lemma LastTicketFound(prior: seq<Entry>, e: Entry)
    ensures LastTicketIs(prior, KeyOf(e), PriorTicket(Indexed(prior), e))
    ensures forall ticket | LastTicketIs(prior, KeyOf(e), ticket) :: ticket == PriorTicket(Indexed(prior), e)
  {
    IndexedIsLast(prior);
    if i :| IsLastOf(prior, KeyOf(e), i) {
      assert prior[i] in prior;
    }
  }

  /** The quarantined tests no earlier run left with a ticket, in order. */
  ghost predicate AreNew(es: seq<Entry>, prior: seq<Entry>, at: seq<nat>) {
    && Positions(at, |es|)
    && forall i: nat | i < |es| :: i in at <==> es[i].quarantined && LastTicketIs(prior, KeyOf(es[i]), "")
  }

  /** The tickets to ask about: those of tests quarantined before and not any more, in order. */
  ghost predicate AreGone(es: seq<Entry>, prior: seq<Entry>, at: seq<nat>) {
    && Positions(at, |prior|)
    && forall i: nat | i < |prior| ::
         i in at <==>
         && prior[i].quarantined && prior[i].jiraKey != ""
         && forall e | e in es && e.quarantined :: KeyOf(e) != KeyOf(prior[i])
  }

  lemma NewAreFound(es: seq<Entry>, prior: seq<Entry>) returns (at: seq<nat>)
    ensures AreNew(es, prior, at) && TakenAt(es, at, Filter(NewIn(Indexed(prior)), es))
  {
    at := FilterKeepsOrder(NewIn(Indexed(prior)), es);
    forall i: nat | i < |es| ensures i in at <==> es[i].quarantined && LastTicketIs(prior, KeyOf(es[i]), "") {
      LastTicketFound(prior, es[i]);
    }
  }

  lemma GoneAreFound(es: seq<Entry>, prior: seq<Entry>) returns (from: seq<nat>)
    ensures AreGone(es, prior, from) && TakenAt(prior, from, Asking(prior, QuarantinedKeys(es)))
  {
    from := FilterKeepsOrder((e: Entry) => AsksStatus(QuarantinedKeys(es), e), prior);
  }

  /** What a run does to the entries and reports about the new ones. */
  lemma RunFiles(es: seq<Entry>, prior: seq<Entry>, t: Tracker) returns (at: seq<nat>)
    requires DistinctKeys(es)
    ensures AreNew(es, prior, at)
    ensures var o := Reconciled(es, prior, Some(t));
            && |o.entries| == |es| && |o.attempts| == |o.newly| == |at|
            && (forall k | 0 <= k < |at| ::
                  && o.attempts[k] == es[at[k]]
                  && o.newly[k] == o.entries[at[k]]
                  && o.newly[k] == match t.create(t.created + k)
                                   case Ok(ticket) => es[at[k]].(jiraKey := ticket)
                                   case Err(_) => es[at[k]])
            && (forall i: nat | i < |es| && i !in at ::
                  && o.entries[i] == es[i].(jiraKey := o.entries[i].jiraKey)
                  && (es[i].quarantined ==> LastTicketIs(prior, KeyOf(es[i]), o.entries[i].jiraKey))
                  && (!es[i].quarantined ==> o.entries[i] == es[i]))
  {
    at := NewAreFound(es, prior);
    OnlyTicketsChange(es, prior, Some(t));
    forall k | 0 <= k < |at| {
      NewIsFiled(es, prior, t, at, k);
    }
    forall i: nat | i < |es| && i !in at {
      OldIsCarried(es, prior, t, at, i);
    }
    NewlyAttempted(es, prior, t);
  }

  lemma {:induction false} AllReported(
      es: seq<Entry>, todo: seq<Entry>, create: nat -> Result<string, string>, asked: nat)
    ensures |Filed(es, todo, create, asked).newly| == |todo|
    decreases |todo|
  {
    if todo != [] {
      FiledLists(es, todo, create, asked, 0);
    }
  }

  lemma NewlyAttempted(es: seq<Entry>, prior: seq<Entry>, t: Tracker)
    ensures var o := Reconciled(es, prior, Some(t));
            o.attempts == Filter(NewIn(Indexed(prior)), es) && |o.newly| == |o.attempts|
  {
    AllReported(CarriedAll(Indexed(prior), es), Filter(NewIn(Indexed(prior)), es), t.create, t.created);
  }

  /** An entry with the tracker's answer to its filing. */
  function Answered(e: Entry, answer: Result<string, string>): Entry {
    match answer
    case Ok(ticket) => e.(jiraKey := ticket)
    case Err(_) => e
  }

  lemma NewIsReported(es: seq<Entry>, prior: seq<Entry>, t: Tracker, k: nat)
    requires k < |Reconciled(es, prior, Some(t)).attempts|
    ensures var o := Reconciled(es, prior, Some(t));
            && |o.newly| == |o.attempts|
            && o.newly[k] == Answered(o.attempts[k], t.create(t.created + k))
  {
    var index := Indexed(prior);
    NewlyAttempted(es, prior, t);
    FiledLists(CarriedAll(index, es), Filter(NewIn(index), es), t.create, t.created, k);
    hide Filed, CarriedAll, Filter, Indexed;
  }

  lemma NewIsAnswered(es: seq<Entry>, prior: seq<Entry>, t: Tracker, i: nat, k: nat)
    requires DistinctKeys(es) && i < |es| && IsNew(Indexed(prior), es[i])
    requires var o := Reconciled(es, prior, Some(t)); k < |o.attempts| && o.attempts[k] == es[i]
    ensures var o := Reconciled(es, prior, Some(t));
            |o.entries| == |es| && o.entries[i] == Answered(es[i], t.create(t.created + k))
  {
    NewlyAttempted(es, prior, t);
    FilterKeepsDistinct(NewIn(Indexed(prior)), es);
    var l := NewTestAnswered(es, prior, t, i);
    hide Reconciled, Indexed, Filter, KeyOf;
    assert l == k;
  }

  lemma NewIsFiled(es: seq<Entry>, prior: seq<Entry>, t: Tracker, at: seq<nat>, k: nat)
    requires DistinctKeys(es) && AreNew(es, prior, at) && TakenAt(es, at, Filter(NewIn(Indexed(prior)), es)) && k < |at|
    ensures var o := Reconciled(es, prior, Some(t));
            && |o.entries| == |es| && |o.newly| == |o.attempts| == |at|
            && o.attempts[k] == es[at[k]] && o.newly[k] == o.entries[at[k]]
            && o.newly[k] == Answered(es[at[k]], t.create(t.created + k))
  {
    NewlyAttempted(es, prior, t);
    LastTicketFound(prior, es[at[k]]);
    assert at[k] in at;
    hide Reconciled, LastTicketIs, Filter, Indexed;
    NewIsReported(es, prior, t, k);
    NewIsAnswered(es, prior, t, at[k], k);
  }

  lemma OldIsCarried(es: seq<Entry>, prior: seq<Entry>, t: Tracker, at: seq<nat>, i: nat)
    requires DistinctKeys(es) && AreNew(es, prior, at) && i < |es| && i !in at
    ensures var o := Reconciled(es, prior, Some(t));
            && |o.entries| == |es|
            && o.entries[i] == es[i].(jiraKey := o.entries[i].jiraKey)
            && (es[i].quarantined ==> LastTicketIs(prior, KeyOf(es[i]), o.entries[i].jiraKey))
            && (!es[i].quarantined ==> o.entries[i] == es[i])
  {
    EntryFate(es, prior, Some(t), i);
    LastTicketFound(prior, es[i]);
    hide Reconciled, Indexed, LastTicketIs;
  }

  lemma ReconciledParts(es: seq<Entry>, prior: seq<Entry>, t: Tracker)
    requires DistinctKeys(es)
    ensures var o, index := Reconciled(es, prior, Some(t)), Indexed(prior);
            var c := Checked(prior, QuarantinedKeys(es), t.status, t.polled);
            && o.unquarantined == c.unquarantined
            && o.errors ==
               Filed(CarriedAll(index, es), Filter(NewIn(index), es), t.create, t.created).errors + c.errors
  {
    OnlyTicketsChange(es, prior, Some(t));
  }

  /** What a run releases and which of the tracker's refusals it reports. */
  lemma RunChecks(es: seq<Entry>, prior: seq<Entry>, t: Tracker) returns (at: seq<nat>, from: seq<nat>)
    requires DistinctKeys(es)
    ensures AreNew(es, prior, at) && AreGone(es, prior, from)
    ensures forall u :: u in Reconciled(es, prior, Some(t)).unquarantined <==>
                        exists k | 0 <= k < |from| :: Releases(prior[from[k]], t.status(t.polled + k), u)
    ensures forall x :: x in Reconciled(es, prior, Some(t)).errors <==>
                        || (exists k | 0 <= k < |at| :: FilingError(es[at[k]], t.create(t.created + k), x))
                        || (exists k | 0 <= k < |from| :: StatusError(prior[from[k]], t.status(t.polled + k), x))
  {
    hide Reconciled, Releases, FilingError, StatusError, Checked, Filed, Asking, Filter, Indexed, CarriedAll, TestKey;
    hide AreNew, AreGone;
    at := NewAreFound(es, prior);
    from := GoneAreFound(es, prior);
    ReconciledParts(es, prior, t);
    var current, index := QuarantinedKeys(es), Indexed(prior);
    forall u ensures u in Reconciled(es, prior, Some(t)).unquarantined <==>
                     exists k | 0 <= k < |from| :: Releases(prior[from[k]], t.status(t.polled + k), u)
    {
      CheckedReleasesExactly(prior, current, t.status, t.polled, u);
    }
    forall x ensures x in Reconciled(es, prior, Some(t)).errors <==>
                     || (exists k | 0 <= k < |at| :: FilingError(es[at[k]], t.create(t.created + k), x))
                     || (exists k | 0 <= k < |from| :: StatusError(prior[from[k]], t.status(t.polled + k), x))
    {
      FiledErrors(CarriedAll(index, es), Filter(NewIn(index), es), t.create, t.created, x);
      CheckedErrors(prior, current, t.status, t.polled, x);
    }
  }

  /** Without a tracker known tickets are carried over, the new tests are named, and nothing else happens. */
  lemma RunWithoutTracker(es: seq<Entry>, prior: seq<Entry>) returns (at: seq<nat>)
    ensures AreNew(es, prior, at)
    ensures var o := Reconciled(es, prior, None);
            && |o.entries| == |es| && TakenAt(es, at, o.newly)
            && o.unquarantined == [] && o.errors == [] && o.attempts == []
            && (forall i: nat | i < |es| && (i in at || !es[i].quarantined) :: o.entries[i] == es[i])
            && (forall i: nat | i < |es| && i !in at && es[i].quarantined ::
                  && o.entries[i] == es[i].(jiraKey := o.entries[i].jiraKey)
                  && LastTicketIs(prior, KeyOf(es[i]), o.entries[i].jiraKey))
  {
    at := NewAreFound(es, prior);
    forall i: nat | i < |es| ensures LastTicketIs(prior, KeyOf(es[i]), PriorTicket(Indexed(prior), es[i])) {
      LastTicketFound(prior, es[i]);
    }
    forall i: nat | i < |es| && i in at ensures PriorTicket(Indexed(prior), es[i]) == "" {
      LastTicketFound(prior, es[i]);
    }
  }

  /** A test is never released and quarantined by the same run. */
  lemma ReleasedAreNotQuarantined(es: seq<Entry>, prior: seq<Entry>, t: Option<Tracker>)
    requires DistinctKeys(es)
    ensures var o := Reconciled(es, prior, t);
            && (forall u | u in o.unquarantined ::
                  && !u.quarantined && u.jiraKey != ""
                  && KeyOf(u) !in QuarantinedKeys(es) && u.(quarantined := true) in prior)
  {
    if t.Some? {
      OnlyTicketsChange(es, prior, t);
      var current := QuarantinedKeys(es);
      CheckedReleases(prior, current, t.value.status, t.value.polled);
      var o := Reconciled(es, prior, t);
      forall u | u in o.unquarantined
        ensures !u.quarantined && u.jiraKey != "" && KeyOf(u) !in current && u.(quarantined := true) in prior
      {
        var p :| p in prior && AsksStatus(current, p) && u == p.(quarantined := false);
        assert u.(quarantined := true) == p;
      }
    }
  }

  // ----- runs -----

  datatype RunInput = RunInput(entries: seq<Entry>, tracker: Option<Tracker>)

  /** The outcomes of consecutive runs, each fed the previous run's entries. */
  function Outcomes(prior: seq<Entry>, runs: seq<RunInput>): seq<Outcome>
    decreases |runs|
  {
    if runs == [] then []
    else
      var o := Reconciled(runs[0].entries, prior, runs[0].tracker);
      [o] + Outcomes(o.entries, runs[1..])
  }

  ghost predicate StaysQuarantined(es: seq<Entry>, key: string) {
    DistinctKeys(es) && exists e | e in es :: e.quarantined && KeyOf(e) == key
  }

  lemma HeldTicketKept(es: seq<Entry>, prior: seq<Entry>, t: Option<Tracker>, key: string, ticket: string)
    requires DistinctKeys(prior) && Holds(prior, key, ticket) && ticket != "" && StaysQuarantined(es, key)
    ensures var o := Reconciled(es, prior, t);
            DistinctKeys(o.entries) && Holds(o.entries, key, ticket) && forall a | a in o.attempts :: KeyOf(a) != key
  {
    var o := Reconciled(es, prior, t);
    OnlyTicketsChange(es, prior, t);
    var i :| 0 <= i < |es| && es[i].quarantined && KeyOf(es[i]) == key;
    PriorTicketIsHeld(prior, es[i], ticket);
    EntryFate(es, prior, t, i);
    assert o.entries[i] in o.entries && o.entries[i].quarantined && KeyOf(o.entries[i]) == key;
    if t.Some? {
      NotFiled(es, Indexed(prior), i);
    }
  }

  /** While a test stays quarantined, a ticket it holds never changes and no further bug is filed for it. */
  lemma {:induction false} TicketSticks(prior: seq<Entry>, runs: seq<RunInput>, key: string, ticket: string)
    requires DistinctKeys(prior) && Holds(prior, key, ticket) && ticket != ""
    requires forall r | r in runs :: StaysQuarantined(r.entries, key)
    ensures forall o | o in Outcomes(prior, runs) ::
              Holds(o.entries, key, ticket) && forall a | a in o.attempts :: KeyOf(a) != key
    decreases |runs|
  {
    if runs != [] {
      var o := Reconciled(runs[0].entries, prior, runs[0].tracker);
      HeldTicketKept(runs[0].entries, prior, runs[0].tracker, key, ticket);
      TicketSticks(o.entries, runs[1..], key, ticket);
    }
  }

  /** So two runs cannot both obtain a ticket for a test that stays quarantined between them. */
  lemma OneTicketEver(prior: seq<Entry>, first: RunInput, rest: seq<RunInput>, e: Entry, k: nat)
    requires DistinctKeys(prior) && DistinctKeys(first.entries) && e in first.entries && IsNew(Indexed(prior), e)
    requires first.tracker.Some?
    requires var o := Reconciled(first.entries, prior, first.tracker);
             && k < |o.attempts| && o.attempts[k] == e
             && var answer := first.tracker.value.create(first.tracker.value.created + k);
                answer.Ok? && answer.value != ""
    requires forall r | r in rest :: StaysQuarantined(r.entries, KeyOf(e))
    ensures var o := Reconciled(first.entries, prior, first.tracker);
            forall later | later in Outcomes(o.entries, rest) ::
              && Holds(later.entries, KeyOf(e), first.tracker.value.create(first.tracker.value.created + k).value)
              && forall a | a in later.attempts :: KeyOf(a) != KeyOf(e)
  {
    var t := first.tracker.value;
    var o := Reconciled(first.entries, prior, first.tracker);
    var i :| 0 <= i < |first.entries| && first.entries[i] == e;
    var j := NewTestAnswered(first.entries, prior, t, i);
    FilterKeepsDistinct(NewIn(Indexed(prior)), first.entries);
    assert j == k;
    OnlyTicketsChange(first.entries, prior, first.tracker);
    assert o.entries[i] in o.entries;
    TicketSticks(o.entries, rest, KeyOf(e), t.create(t.created + k).value);
  }

  /** One run without the test forgets its ticket: it is filed again when it comes back. */
  lemma AbsenceForgetsTicket(gap: seq<Entry>, prior: seq<Entry>, t: Option<Tracker>, e: Entry, u: Tracker)
    requires DistinctKeys(gap) && e.quarantined
    ensures e in Reconciled([e], Reconciled(gap, prior, t).entries, Some(u)).attempts <==>
            !exists p | p in Reconciled(gap, prior, t).entries ::
                p.quarantined && KeyOf(p) == KeyOf(e) && p.jiraKey != ""
    ensures KeyOf(e) !in QuarantinedKeys(gap) ==>
              e in Reconciled([e], Reconciled(gap, prior, t).entries, Some(u)).attempts
  {
    OnlyTicketsChange(gap, prior, t);
    var after := Reconciled(gap, prior, t).entries;
    OneAttemptEach([e], after, u);
    assert e in [e];
    if p :| p in after && p.quarantined && KeyOf(p) == KeyOf(e) && p.jiraKey != "" {
      assert KeyOf(p) in QuarantinedKeys(after);
    }
  }
}
