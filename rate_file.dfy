/** The JSON files both updaters write (`data/rates.json` and
    `data/current_rate.json`), the replies of the two JSON rate APIs, the
    truthiness test both languages apply to a rate, and the bounded history:
    keep the last `keep` prior entries, then append the new record. */
module RateFile {
  import opened Wrappers

  /** A fetched rate counts as present, in Python's `if x` and in
      JavaScript's `x ||`, only when it is a number other than zero. */
  predicate Truthy(x: Option<real>) {
    x.Some? && x.value != 0.0
  }

  /** The `rates` object: the effective rate, its source label, the update time. */
  datatype RateSnapshot = RateSnapshot(bcv: Option<real>, source: string, lastUpdate: string)

  /** One entry of `history`. */
  datatype RateRecord = RateRecord(date: string, bcv: Option<real>, timestamp: string)

  /** The whole of `data/rates.json`. */
  datatype RatesFile = RatesFile(
    timestamp: string,
    date: string,
    rates: RateSnapshot,
    allRates: map<string, Option<real>>,
    history: seq<RateRecord>)

  /** The whole of `data/current_rate.json`: exactly the fields bcv, updated and date. */
  datatype CurrentRate = CurrentRate(bcv: Option<real>, updated: string, date: string)

  /** A JSON API's answer: nothing (network or parse failure), or a document
      whose top-level members are objects of numbers or nulls. */
  datatype ApiReply = NoReply | Reply(doc: map<string, map<string, Option<real>>>)

  /** The reply has the member `doc[outer][inner]`. */
  predicate HasField(reply: ApiReply, outer: string, inner: string) {
    reply.Reply? && outer in reply.doc && inner in reply.doc[outer]
  }

  function FieldValue(reply: ApiReply, outer: string, inner: string): Option<real>
    requires HasField(reply, outer, inner)
  {
    reply.doc[outer][inner]
  }

  function Min(a: nat, b: nat): nat {
    if a <= b then a else b
  }

  /** Python's `h[-n:]` and JavaScript's `h.slice(-n)` for a positive literal
      `n`: the last `n` entries, or all of them when there are fewer. */
  function KeepLast(h: seq<RateRecord>, n: nat): (r: seq<RateRecord>)
    requires n >= 1
    ensures |r| == Min(|h|, n) && r == h[|h| - |r|..]
  {
    if |h| <= n then h else h[|h| - n..]
  }

  /** The history written after one run: the prior file's history, if it was
      read, cut to its last `keep` entries, then the new record. */
  function NextHistory(prior: Option<seq<RateRecord>>, keep: nat, rec: RateRecord): (h: seq<RateRecord>)
    requires keep >= 1
  {
    match prior
    case None => [rec]
    case Some(before) => KeepLast(before, keep) + [rec]
  }

  /** The new history holds the last min(N, keep) prior entries in their
      order, then the new record; at most keep + 1 entries; a prior file that
      could not be read leaves the new record alone. */
  lemma NextHistoryShape(prior: Option<seq<RateRecord>>, keep: nat, rec: RateRecord)
    requires keep >= 1
    ensures var h := NextHistory(prior, keep, rec);
      var kept := if prior.Some? then Min(|prior.value|, keep) else 0;
      |h| == kept + 1 && |h| <= keep + 1 && h[kept] == rec &&
      (prior.Some? ==> forall i :: 0 <= i < kept ==> h[i] == prior.value[|prior.value| - kept + i])
  {
  }

  /** Cutting to the last `n` before appending and cutting again changes nothing. */
  lemma KeepLastAbsorbs(a: seq<RateRecord>, b: seq<RateRecord>, n: nat)
    requires n >= 1
    ensures KeepLast(KeepLast(a, n) + b, n) == KeepLast(a + b, n)
  {
    var lhs := KeepLast(KeepLast(a, n) + b, n);
    var rhs := KeepLast(a + b, n);
    assert |lhs| == |rhs| by {
      if |a| > n {
        assert |KeepLast(a, n)| == n;
      }
    }
    forall i | 0 <= i < |lhs|
      ensures lhs[i] == rhs[i]
    {
      KeepLastAbsorbsAt(a, b, n, i);
    }
  }

  /** One position of `KeepLastAbsorbs`, counted from the start of the window. */
  lemma KeepLastAbsorbsAt(a: seq<RateRecord>, b: seq<RateRecord>, n: nat, i: nat)
    requires n >= 1 && i < |KeepLast(a + b, n)| == |KeepLast(KeepLast(a, n) + b, n)|
    ensures KeepLast(KeepLast(a, n) + b, n)[i] == KeepLast(a + b, n)[i]
  {
    var ka := KeepLast(a, n);
    var w := |KeepLast(a + b, n)|;
    var o := |ka| + |b| - w + i;
    var o2 := |a| + |b| - w + i;
    assert KeepLast(ka + b, n)[i] == (ka + b)[o];
    assert KeepLast(a + b, n)[i] == (a + b)[o2];
    if o < |ka| {
      assert (ka + b)[o] == ka[o] == a[|a| - |ka| + o];
      assert (a + b)[o2] == a[o2];
    } else {
      assert (ka + b)[o] == b[o - |ka|];
      assert (a + b)[o2] == b[o2 - |a|];
    }
  }

  /** One run: keeping `keep` entries and appending one record is keeping the
      last `keep + 1` entries of the prior history followed by the record. */
  lemma AppendIsWindow(h: seq<RateRecord>, keep: nat, rec: RateRecord)
    requires keep >= 1
    ensures NextHistory(Some(h), keep, rec) == KeepLast(h + [rec], keep + 1)
  {
    var lhs := NextHistory(Some(h), keep, rec);
    var rhs := KeepLast(h + [rec], keep + 1);
    assert |lhs| == |rhs|;
    forall i | 0 <= i < |lhs|
      ensures lhs[i] == rhs[i]
    {
    }
  }

  /** The history after the records `recs` have been written by successive
      runs, each reading the file the previous one wrote. */
  function Replay(h: seq<RateRecord>, recs: seq<RateRecord>, keep: nat): seq<RateRecord>
    requires keep >= 1
    decreases |recs|
  {
    if recs == [] then h else Replay(NextHistory(Some(h), keep, recs[0]), recs[1..], keep)
  }

  /** After one run or more the file holds exactly the last `keep + 1` entries
      of everything ever recorded, in order: a sliding window by position. */
  lemma {:induction false} ReplayKeepsMostRecent(h: seq<RateRecord>, recs: seq<RateRecord>, keep: nat)
    requires keep >= 1 && |recs| >= 1
    ensures Replay(h, recs, keep) == KeepLast(h + recs, keep + 1)
    decreases |recs|
  {
    var h1 := NextHistory(Some(h), keep, recs[0]);
    var rest := recs[1..];
    assert recs == [recs[0]] + rest;
    assert Replay(h, recs, keep) == Replay(h1, rest, keep);
    if rest == [] {
      assert Replay(h1, rest, keep) == h1;
      assert h + recs == h + [recs[0]];
      AppendIsWindow(h, keep, recs[0]);
    } else {
      assert h + recs == h + ([recs[0]] + rest);
      ReplayKeepsMostRecent(h1, rest, keep);
      WindowStep(h, recs[0], rest, keep);
    }
  }

  /** The inductive step: the window of one run's history followed by later
      records is the window of the prior history followed by all of them. */
  lemma WindowStep(h: seq<RateRecord>, rec: RateRecord, rest: seq<RateRecord>, keep: nat)
    requires keep >= 1
    ensures KeepLast(NextHistory(Some(h), keep, rec) + rest, keep + 1) == KeepLast(h + ([rec] + rest), keep + 1)
  {
    assert h + ([rec] + rest) == (h + [rec]) + rest;
    AppendIsWindow(h, keep, rec);
    KeepLastAbsorbs(h + [rec], rest, keep + 1);
  }

  /** Once at least `keep + 1` runs have happened, the history is exactly the
      last `keep + 1` records written, whatever the file held before. */
  lemma SteadyHistory(h: seq<RateRecord>, recs: seq<RateRecord>, keep: nat)
    requires keep >= 1 && |recs| >= keep + 1
    ensures Replay(h, recs, keep) == recs[|recs| - (keep + 1)..]
  {
    ReplayKeepsMostRecent(h, recs, keep);
    WindowOfLongTail(h, recs, keep + 1);
  }

  /** When the appended part is at least `n` long, the window lies inside it. */
  lemma WindowOfLongTail(h: seq<RateRecord>, recs: seq<RateRecord>, n: nat)
    requires n >= 1 && |recs| >= n
    ensures KeepLast(h + recs, n) == recs[|recs| - n..]
  {
    if |h + recs| <= n {
      assert h == [] && h + recs == recs == recs[0..];
    } else {
      DropAcrossAppend(h, recs, |recs| - n);
    }
  }

  /** Dropping past the first part of a concatenation drops from the second. */
  lemma DropAcrossAppend(h: seq<RateRecord>, recs: seq<RateRecord>, k: nat)
    requires k <= |recs|
    ensures (h + recs)[|h| + k..] == recs[k..]
  {
    forall i | 0 <= i < |recs| - k
      ensures (h + recs)[|h| + k..][i] == recs[k..][i]
    {
      assert (h + recs)[|h| + k + i] == recs[k + i];
    }
  }
}
