/** As-of reads of one key whose facts arrived with strictly increasing start dates: a step function of time. */
module AsOfReads {
  import opened Common
  import opened GraphModel
  import opened GraphStore
  import opened Supersession
  import opened IngestRuns

  /** The facts of one key, in the order they were ingested. */
  function OfKey(history: seq<Ingest>, like: Fact): seq<Fact> {
    if history == [] then []
    else
      var rest, last := OfKey(history[..|history| - 1], like), history[|history| - 1].fact;
      if SameKey(last, like) then rest + [last] else rest
  }

  ghost predicate Increasing(line: seq<Fact>) {
    && (forall i :: 0 <= i < |line| ==> line[i].validFrom.At?)
    && (forall i, j :: 0 <= i < j < |line| ==> line[i].validFrom.ms < line[j].validFrom.ms)
  }

  predicate Differ(a: Fact, b: Fact) {
    a.value.Rendered() != b.value.Rendered()
  }

  /** A fact once the later ones of its key are in: the first to differ closes it, the rest pass it by. */
  function Settled(f: Fact, later: seq<Fact>): Fact {
    if later == [] then f
    else
      var s := Settled(f, later[..|later| - 1]);
      if s.status == Current && Differ(s, later[|later| - 1]) then Overruled(s, later[|later| - 1]) else s
  }

  lemma {:induction false} SettledMeaning(f: Fact, later: seq<Fact>)
    requires f.status == Current
    ensures SameClaim(Settled(f, later), f)
    ensures (forall k :: 0 <= k < |later| ==> !Differ(f, later[k])) ==> Settled(f, later) == f
    ensures forall j :: 0 <= j < |later| && Differ(f, later[j]) && (forall k :: 0 <= k < j ==> !Differ(f, later[k])) ==>
              Settled(f, later) == Overruled(f, later[j])
    ensures Settled(f, later).status == Current <==> forall k :: 0 <= k < |later| ==> !Differ(f, later[k])
  {
    if later != [] {
      var init := later[..|later| - 1];
      SettledMeaning(f, init);
      assert forall k :: 0 <= k < |init| ==> init[k] == later[k];
    }
  }

  /** The stored facts of the key are exactly the ingested ones, each settled by those after it. */
  ghost predicate LineStored(facts: map<Id, Fact>, line: seq<Fact>, like: Fact) {
    && (forall i :: 0 <= i < |line| ==> line[i].status == Current && SameKey(line[i], like)
                                        && line[i].id in facts && facts[line[i].id] == Settled(line[i], line[i + 1..]))
    && (forall f :: f in facts && SameKey(facts[f], like) ==> InLine(line, f))
  }

  ghost predicate InLine(line: seq<Fact>, f: Id) {
    exists i :: 0 <= i < |line| && line[i].id == f
  }

  /** A later start date settles the comparison: only agreement or supersession is left. */
  lemma LaterWins(prior: Fact, e: Ingest)
    requires prior.validFrom.At? && e.fact.validFrom.At? && prior.validFrom.ms < e.fact.validFrom.ms
    ensures !DefeatedBy(prior, e)
    ensures Next(prior, e) == if IsRival(prior, e.fact) && Differ(prior, e.fact) then Overruled(prior, e.fact)
            else prior
  {}

  lemma SettledSnoc(f: Fact, later: seq<Fact>, last: Fact)
    ensures Settled(f, later + [last])
         == if Settled(f, later).status == Current && Differ(Settled(f, later), last)
             then Overruled(Settled(f, later), last)
            else Settled(f, later)
  {
    assert (later + [last])[..|later + [last]| - 1] == later;
  }

  lemma LineGrows(before: map<Id, Fact>, after: map<Id, Fact>, e: Ingest, incoming: Fact, line: seq<Fact>, like: Fact)
    requires Steps(before, after, e, incoming) && LineStored(before, line, like)
    requires SameKey(e.fact, like) && Increasing(line + [e.fact])
    ensures LineStored(after, line + [e.fact], like)
  {
    var longer := line + [e.fact];
    forall f | f in before && SameKey(before[f], like) ensures !DefeatedBy(before[f], e) {
      var i :| 0 <= i < |line| && line[i].id == f;
      SettledMeaning(line[i], line[i + 1..]);
      assert longer[i] == line[i] && longer[|line|] == e.fact;
      LaterWins(before[f], e);
    }
    assert incoming == e.fact;
    forall i | 0 <= i < |longer|
      ensures longer[i].id in after && after[longer[i].id] == Settled(longer[i], longer[i + 1..])
    {
      if i < |line| {
        SettledMeaning(line[i], line[i + 1..]);
        assert longer[i] == line[i] && longer[|line|] == e.fact;
        LaterWins(before[line[i].id], e);
        assert longer[i + 1..] == line[i + 1..] + [e.fact];
        SettledSnoc(line[i], line[i + 1..], e.fact);
      } else {
        assert longer[i + 1..] == [];
      }
    }
    forall f | f in after && SameKey(after[f], like) ensures InLine(longer, f) {
      if f == e.fact.id {
        assert longer[|line|].id == f;
      } else {
        NextKeepsClaim(before[f], e);
        var i :| 0 <= i < |line| && line[i].id == f;
        assert longer[i].id == f;
      }
    }
  }

  lemma LineStays(before: map<Id, Fact>, after: map<Id, Fact>, e: Ingest, incoming: Fact, line: seq<Fact>, like: Fact)
    requires Steps(before, after, e, incoming) && LineStored(before, line, like) && !SameKey(e.fact, like)
    ensures LineStored(after, line, like)
  {
    forall f | f in before && SameKey(before[f], like) ensures after[f] == before[f] {}
    forall i | 0 <= i < |line| ensures line[i].id in after && after[line[i].id] == before[line[i].id] {
      SettledMeaning(line[i], line[i + 1..]);
    }
    forall f | f in after && SameKey(after[f], like) ensures InLine(line, f) {
      if f != e.fact.id { NextKeepsClaim(before[f], e); }
    }
  }

  lemma {:induction false} LineIsStored(g: Graph, history: seq<Ingest>, like: Fact)
    requires EmptyStart(g) && LegalHistory(g, history) && Increasing(OfKey(history, like))
    ensures LineStored(After(g, history).facts, OfKey(history, like), like)
  {
    if history != [] {
      var init, e, incoming := LastIngest(g, history);
      assert init == history[..|history| - 1];
      PrefixIncreases(init, e, like);
      LineIsStored(g, init, like);
      LineStep(After(g, init).facts, After(g, history).facts, e, incoming, OfKey(init, like), like);
    }
  }

  lemma PrefixIncreases(init: seq<Ingest>, e: Ingest, like: Fact)
    requires Increasing(OfKey(init + [e], like))
    ensures Increasing(OfKey(init, like))
    ensures OfKey(init + [e], like) == if SameKey(e.fact, like) then OfKey(init, like) + [e.fact] else OfKey(init, like)
  {
    assert (init + [e])[..|init + [e]| - 1] == init;
    var line := OfKey(init, like);
    assert forall i :: 0 <= i < |line| ==> (line + [e.fact])[i] == line[i];
  }

  lemma LineStep(before: map<Id, Fact>, after: map<Id, Fact>, e: Ingest, incoming: Fact, line: seq<Fact>, like: Fact)
    requires Steps(before, after, e, incoming) && LineStored(before, line, like)
    requires SameKey(e.fact, like) ==> Increasing(line + [e.fact])
    ensures LineStored(after, if SameKey(e.fact, like) then line + [e.fact] else line, like)
  {
    if SameKey(e.fact, like) {
      LineGrows(before, after, e, incoming, line, like);
    } else {
      LineStays(before, after, e, incoming, line, like);
    }
  }

  // ---------- reading ----------

  /** `k` is the latest fact of the line that starts before the moment, and nothing starts exactly then. */
  ghost predicate LatestBefore(line: seq<Fact>, k: int, t: Time) {
    && 0 <= k < |line|
    && (forall i :: 0 <= i <= k ==> line[i].validFrom.At? && line[i].validFrom.ms < t)
    && (forall i :: k < i < |line| ==> line[i].validFrom.At? && t < line[i].validFrom.ms)
  }

  lemma {:induction false} LatestExists(line: seq<Fact>, t: Time) returns (k: nat)
    requires Increasing(line) && |line| > 0 && line[0].validFrom.ms < t
    requires forall i :: 0 <= i < |line| ==> line[i].validFrom.ms != t
    ensures LatestBefore(line, k, t)
  {
    var n := |line| - 1;
    if line[n].validFrom.ms < t {
      k := n;
    } else {
      assert Increasing(line[..n]);
      k := LatestExists(line[..n], t);
      forall i | k < i < |line| ensures t < line[i].validFrom.ms {
        if i < n { assert line[..n][i] == line[i]; }
      }
      forall i | 0 <= i <= k ensures line[i].validFrom.ms < t { assert line[..n][i] == line[i]; }
    }
  }

  /** Positions i to k all carry the same value. */
  ghost predicate SameRun(line: seq<Fact>, i: int, k: int)
    requires 0 <= i && k < |line|
  {
    forall m :: i <= m <= k ==> !Differ(line[i], line[m])
  }

  ghost predicate ClosedLater(line: seq<Fact>, i: nat, k: nat)
    requires i < |line|
  {
    exists m :: k < m < |line| && Differ(line[i], line[m])
  }

  /** The fact's own closing time, as ingested, does not exclude the moment. */
  predicate OpenAt(f: Fact, t: Time) {
    f.validTo.Absent? || (f.validTo.At? && t <= f.validTo.ms)
  }

  /** The reading rule for the fact at position i when k is the latest to have started. */
  ghost predicate Returned(line: seq<Fact>, i: nat, k: nat, t: Time)
    requires i < |line| && k < |line|
  {
    i <= k && SameRun(line, i, k) && (ClosedLater(line, i, k) || OpenAt(line[i], t))
  }

  lemma FirstDifference(f: Fact, later: seq<Fact>) returns (j: nat)
    ensures j <= |later| && (j < |later| ==> Differ(f, later[j])) && forall k :: 0 <= k < j ==> !Differ(f, later[k])
  {
    j := 0;
    while j < |later| && !Differ(f, later[j])
      invariant j <= |later| && forall k :: 0 <= k < j ==> !Differ(f, later[k])
    {
      j := j + 1;
    }
  }

  lemma SettledAtDifference(f: Fact, later: seq<Fact>, j: nat)
    requires f.status == Current && j <= |later|
    requires (j < |later| ==> Differ(f, later[j])) && forall k :: 0 <= k < j ==> !Differ(f, later[k])
    ensures Settled(f, later) == if j < |later| then Overruled(f, later[j]) else f
  {
    SettledMeaning(f, later);
  }

  /** Where the run of equal values that starts at `i` ends, and how its first fact is stored. */
  lemma RunEnds(line: seq<Fact>, i: nat) returns (c: nat)
    requires i < |line| && line[i].status == Current
    ensures i < c <= |line| && SameRun(line, i, c - 1) && (c < |line| ==> Differ(line[i], line[c]))
    ensures Settled(line[i], line[i + 1..]) == if c < |line| then Overruled(line[i], line[c]) else line[i]
  {
    var later := line[i + 1..];
    var j := FirstDifference(line[i], later);
    c := i + 1 + j;
    SettledAtDifference(line[i], later, j);
    assert forall m :: i < m < |line| ==> line[m] == later[m - i - 1];
  }

  lemma RunCovers(line: seq<Fact>, i: nat, c: nat, k: nat)
    requires i <= k < |line| && i < c <= |line| && SameRun(line, i, c - 1) && (c < |line| ==> Differ(line[i], line[c]))
    ensures SameRun(line, i, k) <==> k < c
    ensures SameRun(line, i, k) ==> (ClosedLater(line, i, k) <==> c < |line|)
  {}

  /** Exactly which facts of the line an as-of read returns. */
  lemma ReadOfLine(line: seq<Fact>, i: nat, k: nat, t: Time)
    requires Increasing(line) && i < |line| && line[i].status == Current && LatestBefore(line, k, t)
    ensures ValidAt(Settled(line[i], line[i + 1..]), Millis(t)) <==> Returned(line, i, k, t)
  {
    var c := RunEnds(line, i);
    if i <= k { RunCovers(line, i, c, k); }
  }

  ghost predicate ReadHas(facts: map<Id, Fact>, like: Fact, t: Time, f: Id) {
    f in AsOf(facts, like.tenant, like.entity, Millis(t)) && SameKey(facts[f], like)
  }

  /** Every fact of the key that the read returns has the value of `latest`. */
  ghost predicate ReadsOnly(facts: map<Id, Fact>, like: Fact, t: Time, latest: Fact) {
    forall f :: ReadHas(facts, like, t, f) ==> !Differ(facts[f], latest)
  }

  lemma ReadOfStoredFact(facts: map<Id, Fact>, line: seq<Fact>, like: Fact, i: nat, k: nat, t: Time)
    requires LineStored(facts, line, like) && Increasing(line) && i < |line| && LatestBefore(line, k, t)
    ensures ReadHas(facts, like, t, line[i].id) <==> Returned(line, i, k, t)
    ensures line[i].id in facts && facts[line[i].id].value == line[i].value
  {
    ReadOfLine(line, i, k, t);
    SettledMeaning(line[i], line[i + 1..]);
  }

  /** A read between start dates is the step function: it returns facts with the value of the latest one begun,
      and exactly those of its run that were closed later or are still open. */
  lemma AsOfIsStepFunction(g: Graph, history: seq<Ingest>, like: Fact, line: seq<Fact>, t: Time) returns (k: nat)
    requires EmptyStart(g) && LegalHistory(g, history) && line == OfKey(history, like)
    requires Increasing(line) && |line| > 0 && line[0].validFrom.ms < t
    requires forall i :: 0 <= i < |line| ==> line[i].validFrom.ms != t
    ensures LatestBefore(line, k, t)
    ensures forall i :: 0 <= i < |line| ==>
              (ReadHas(After(g, history).facts, like, t, line[i].id) <==> Returned(line, i, k, t))
    ensures ReadsOnly(After(g, history).facts, like, t, line[k])
    ensures line[k].validTo.Absent? ==> ReadHas(After(g, history).facts, like, t, line[k].id)
  {
    var facts := After(g, history).facts;
    LineIsStored(g, history, like);
    k := LatestExists(line, t);
    forall i | 0 <= i < |line| ensures ReadHas(facts, like, t, line[i].id) <==> Returned(line, i, k, t) {
      ReadOfStoredFact(facts, line, like, i, k, t);
    }
    forall f | ReadHas(facts, like, t, f) ensures !Differ(facts[f], line[k]) {
      assert InLine(line, f);
      var i :| 0 <= i < |line| && line[i].id == f;
      ReadOfStoredFact(facts, line, like, i, k, t);
    }
    assert SameRun(line, k, k);
  }

  // ---------- reading at a start date ----------

  /** The reading rule at the start of position n: a fact begun before is returned unless another value began strictly
      in between, and the one that starts then unless it was ingested with an earlier end. */
  ghost predicate ReturnedAtStart(line: seq<Fact>, i: nat, n: nat, t: Time)
    requires i < |line| && 0 < n < |line|
  {
    var last := if i < n then n - 1 else n;
    i <= n && SameRun(line, i, last) && (ClosedLater(line, i, last) || OpenAt(line[i], t))
  }

  lemma ReadAtStart(line: seq<Fact>, i: nat, n: nat, t: Time)
    requires Increasing(line) && i < |line| && 0 < n < |line| && line[i].status == Current && line[n].validFrom == At(t)
    ensures ValidAt(Settled(line[i], line[i + 1..]), Millis(t)) <==> ReturnedAtStart(line, i, n, t)
  {
    var c := RunEnds(line, i);
    if i <= n { RunCovers(line, i, c, if i < n then n - 1 else n); }
  }

  /** The stored facts of a line, as a read at the start of position n finds them. */
  lemma ReadOfLineAtStart(facts: map<Id, Fact>, line: seq<Fact>, like: Fact, i: nat, n: nat, t: Time)
    requires LineStored(facts, line, like) && Increasing(line) && i < |line|
    requires 0 < n < |line| && line[n].validFrom == At(t)
    ensures ReadHas(facts, like, t, line[i].id) <==> ReturnedAtStart(line, i, n, t)
    ensures line[i].id in facts && facts[line[i].id].value == line[i].value
  {
    ReadAtStart(line, i, n, t);
    SettledMeaning(line[i], line[i + 1..]);
  }

  lemma ChangeReadsBoth(line: seq<Fact>, n: nat, t: Time)
    requires 0 < n < |line|
    ensures Differ(line[n - 1], line[n]) ==> ReturnedAtStart(line, n - 1, n, t)
    ensures !Differ(line[n - 1], line[n]) ==>
              forall i :: 0 <= i < |line| && ReturnedAtStart(line, i, n, t) ==> !Differ(line[i], line[n])
  {}

  lemma OnlyNewOfLine(facts: map<Id, Fact>, line: seq<Fact>, like: Fact, n: nat, t: Time)
    requires LineStored(facts, line, like) && Increasing(line) && 0 < n < |line| && line[n].validFrom == At(t)
    ensures ReadsOnly(facts, like, t, line[n]) <==> !Differ(line[n - 1], line[n])
  {
    ChangeReadsBoth(line, n, t);
    if Differ(line[n - 1], line[n]) {
      ReadOfLineAtStart(facts, line, like, n - 1, n, t);
    } else {
      forall f | ReadHas(facts, like, t, f) ensures !Differ(facts[f], line[n]) {
        assert InLine(line, f);
        var i :| 0 <= i < |line| && line[i].id == f;
        ReadOfLineAtStart(facts, line, like, i, n, t);
      }
    }
  }

  /** A read at a start date returns the value that starts then alone exactly when it is no change of value. */
  lemma BoundaryReadsOnlyNew(g: Graph, history: seq<Ingest>, like: Fact, line: seq<Fact>, n: nat, t: Time)
    requires EmptyStart(g) && LegalHistory(g, history) && line == OfKey(history, like)
    requires Increasing(line) && 0 < n < |line| && line[n].validFrom == At(t)
    ensures ReadsOnly(After(g, history).facts, like, t, line[n]) <==> !Differ(line[n - 1], line[n])
  {
    LineIsStored(g, history, like);
    OnlyNewOfLine(After(g, history).facts, line, like, n, t);
  }

  /** Intervals include both ends: exactly which facts of the key a read at a start date returns. The old value is
      among them whenever the new one differs. */
  lemma BoundaryReadsBoth(g: Graph, history: seq<Ingest>, like: Fact, line: seq<Fact>, n: nat, t: Time)
    requires EmptyStart(g) && LegalHistory(g, history) && line == OfKey(history, like)
    requires Increasing(line) && 0 < n < |line| && line[n].validFrom == At(t)
    ensures forall i :: 0 <= i < |line| ==>
              (ReadHas(After(g, history).facts, like, t, line[i].id) <==> ReturnedAtStart(line, i, n, t))
    ensures Differ(line[n - 1], line[n]) ==> ReadHas(After(g, history).facts, like, t, line[n - 1].id)
  {
    LineIsStored(g, history, like);
    forall i | 0 <= i < |line|
      ensures ReadHas(After(g, history).facts, like, t, line[i].id) <==> ReturnedAtStart(line, i, n, t)
    {
      ReadOfLineAtStart(After(g, history).facts, line, like, i, n, t);
    }
    ChangeReadsBoth(line, n, t);
  }

  lemma SomethingReturned(line: seq<Fact>, k: nat, t: Time)
    requires k < |line|
    ensures (exists i :: 0 <= i < |line| && Returned(line, i, k, t))
       <==> ClosedLater(line, k, k) || exists i :: 0 <= i <= k && SameRun(line, i, k) && OpenAt(line[i], t)
  {
    assert SameRun(line, k, k);
    if ClosedLater(line, k, k) { assert Returned(line, k, k, t); }
    forall i | 0 <= i <= k && SameRun(line, i, k) && OpenAt(line[i], t) ensures Returned(line, i, k, t) {}
    forall i | 0 <= i < |line| && Returned(line, i, k, t) && ClosedLater(line, i, k) ensures ClosedLater(line, k, k) {
      var m :| k < m < |line| && Differ(line[i], line[m]);
      assert !Differ(line[i], line[k]);
      assert Differ(line[k], line[m]);
    }
  }

  ghost predicate ReadsKey(facts: map<Id, Fact>, like: Fact, t: Time) {
    exists f :: ReadHas(facts, like, t, f)
  }

  lemma ReadOfStoredLine(facts: map<Id, Fact>, line: seq<Fact>, like: Fact, t: Time, k: nat)
    requires LineStored(facts, line, like) && Increasing(line) && LatestBefore(line, k, t)
    ensures ReadsKey(facts, like, t) <==> exists i :: 0 <= i < |line| && Returned(line, i, k, t)
  {
    if ReadsKey(facts, like, t) {
      var f :| ReadHas(facts, like, t, f);
      assert InLine(line, f);
      var i :| 0 <= i < |line| && line[i].id == f;
      ReadOfStoredFact(facts, line, like, i, k, t);
    }
    if i :| 0 <= i < |line| && Returned(line, i, k, t) {
      ReadOfStoredFact(facts, line, like, i, k, t);
    }
  }

  /** A read of the key is empty exactly when nothing closed the running value and each fact of its run was ingested
      already closed before the moment. */
  lemma ReadIsEmptyExactlyWhen(g: Graph, history: seq<Ingest>, like: Fact, line: seq<Fact>, t: Time, k: nat)
    requires EmptyStart(g) && LegalHistory(g, history) && line == OfKey(history, like)
    requires Increasing(line) && LatestBefore(line, k, t)
    ensures !ReadsKey(After(g, history).facts, like, t)
       <==> !ClosedLater(line, k, k) && forall i :: 0 <= i <= k && SameRun(line, i, k) ==> !OpenAt(line[i], t)
  {
    LineIsStored(g, history, like);
    SomethingReturned(line, k, t);
    ReadOfStoredLine(After(g, history).facts, line, like, t, k);
  }
}
