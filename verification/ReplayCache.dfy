/** The bounded replay cache (`seen`) of agents/aggregator/server.js. */
module ReplayCache {
  type Id = string

  /** A signed message as the handlers see it: its replay id, and whether its signature checks out. */
  datatype Message = Message(id: Id, signatureOk: bool)
  datatype Verdict = Accepted | ReplayDetected | InvalidSignature

  /** `slice(-k)`: the last k elements, but the whole list when k is 0. */
  function SliceFromEnd(s: seq<Id>, k: nat): seq<Id> {
    if k == 0 || k >= |s| then s else s[|s| - k..]
  }

  /** Insertion into the ordered set, halving it when it outgrows the limit. */
  function Mark(limit: nat, seen: seq<Id>, key: Id): seq<Id> {
    var grown := if key in seen then seen else seen + [key];
    if |grown| > limit then SliceFromEnd(grown, limit / 2) else grown
  }

  function Verify(seen: seq<Id>, m: Message): Verdict {
    if m.id in seen then ReplayDetected else if !m.signatureOk then InvalidSignature else Accepted
  }

  /** What is accepted is exactly what is signed correctly and not remembered; a remembered id is a replay first. */
  lemma VerdictIff(seen: seq<Id>, m: Message)
    ensures Verify(seen, m) == Accepted <==> m.signatureOk && m.id !in seen
    ensures Verify(seen, m) == ReplayDetected <==> m.id in seen
  {
  }

  /** A newly accepted id is always remembered, and marking a remembered one changes nothing within the limit. */
  lemma MarkRemembers(limit: nat, seen: seq<Id>, key: Id)
    ensures key !in seen ==> key in Mark(limit, seen, key)
    ensures key in seen && |seen| <= limit ==> Mark(limit, seen, key) == seen
  {
    if key !in seen {
      var grown := seen + [key];
      assert grown[|grown| - 1] == key;
      var marked := Mark(limit, seen, key);
      assert marked[|marked| - 1] == key;
    }
  }

  class SeenCache {
    const limit: nat
    var seen: seq<Id>

    constructor (limit: nat, loaded: seq<Id>)
      ensures this.limit == limit && seen == loaded
    {
      this.limit := limit;
      seen := loaded;
    }

    method MarkSeen(key: Id)
      modifies this
      ensures seen == Mark(limit, old(seen), key)
    {
      if key !in seen {
        seen := seen + [key];
      }
      if |seen| > limit {
        seen := SliceFromEnd(seen, limit / 2);
      }
    }

    /** The replay check, the signature check and the marking run without an await between them. */
    method Handle(m: Message) returns (v: Verdict)
      modifies this
      ensures v == Verify(old(seen), m)
      ensures seen == if v.Accepted? then Mark(limit, old(seen), m.id) else old(seen)
    {
      if m.id in seen {
        return ReplayDetected;
      }
      if !m.signatureOk {
        return InvalidSignature;
      }
      MarkSeen(m.id);
      return Accepted;
    }
  }

  // ---------- Whole runs ----------

  /** The cache, and every id that was ever loaded or accepted, oldest first. */
  datatype Trace = Trace(seen: seq<Id>, history: seq<Id>)

  function Run(limit: nat, loaded: seq<Id>, ms: seq<Message>): Trace {
    if ms == [] then Trace(loaded, loaded)
    else
      var t, m := Run(limit, loaded, ms[..|ms| - 1]), ms[|ms| - 1];
      if Verify(t.seen, m).Accepted? then Trace(Mark(limit, t.seen, m.id), t.history + [m.id]) else t
  }

  ghost predicate Distinct(s: seq<Id>) {
    forall i, j :: 0 <= i < j < |s| ==> s[i] != s[j]
  }

  function Min(a: nat, b: nat): nat {
    if a < b then a else b
  }

  /** How far back the cache is sure to remember: half the limit, or for ever when the half rounds to zero. */
  function Memory(limit: nat, total: nat): nat {
    if limit / 2 == 0 then total else Min(total, limit / 2)
  }

  ghost predicate Suffix(seen: seq<Id>, history: seq<Id>) {
    |seen| <= |history| && seen == history[|history| - |seen|..]
  }

  lemma MarkKeepsSuffix(limit: nat, seen: seq<Id>, history: seq<Id>, key: Id)
    requires Suffix(seen, history) && Distinct(seen) && key !in seen
    ensures var marked := Mark(limit, seen, key);
      && Suffix(marked, history + [key]) && Distinct(marked)
      && (|marked| == |seen| + 1 || (limit / 2 > 0 && |marked| == limit / 2))
      && (limit >= 2 ==> |marked| <= limit)
  {
    var grown := seen + [key];
    assert grown == (history + [key])[|history| - |seen|..];
    assert Distinct(grown);
  }

  /**
    The cache is always a suffix of the history in order, at least `Memory` long and, once it has marked, at most the
    limit.
   */
  lemma {:induction false} SeenIsRecentHistory(limit: nat, loaded: seq<Id>, ms: seq<Message>)
    requires Distinct(loaded)
    ensures var t := Run(limit, loaded, ms);
      && Suffix(t.seen, t.history) && Distinct(t.seen)
      && |t.seen| >= Memory(limit, |t.history|)
      && (limit >= 2 && |t.history| > |loaded| ==> |t.seen| <= limit)
      && |t.history| >= |loaded|
  {
    if ms != [] {
      SeenIsRecentHistory(limit, loaded, ms[..|ms| - 1]);
      var t, m := Run(limit, loaded, ms[..|ms| - 1]), ms[|ms| - 1];
      if Verify(t.seen, m).Accepted? {
        MarkKeepsSuffix(limit, t.seen, t.history, m.id);
      }
    }
  }

  /** A message whose id is among the last floor(limit/2) accepted is refused as a replay, whatever came in between. */
  lemma RecentReplayIsRefused(limit: nat, loaded: seq<Id>, ms: seq<Message>, m: Message, k: nat)
    requires Distinct(loaded)
    requires var h := Run(limit, loaded, ms).history; 0 < k <= Memory(limit, |h|) && h[|h| - k] == m.id
    ensures Verify(Run(limit, loaded, ms).seen, m) == ReplayDetected
  {
    SeenIsRecentHistory(limit, loaded, ms);
    var t := Run(limit, loaded, ms);
    assert t.seen[|t.seen| - k] == t.history[|t.history| - k];
  }

  /** Only ids that were loaded or accepted before are refused as replays. */
  lemma {:induction false} NoFalseReplay(limit: nat, loaded: seq<Id>, ms: seq<Message>, m: Message)
    requires Distinct(loaded) && Verify(Run(limit, loaded, ms).seen, m) == ReplayDetected
    ensures m.id in Run(limit, loaded, ms).history
  {
    SeenIsRecentHistory(limit, loaded, ms);
  }

  ghost predicate Fresh(ids: seq<Id>, ms: seq<Message>) {
    Distinct(ids) && |ms| == |ids| && forall i :: 0 <= i < |ms| ==> ms[i] == Message(ids[i], true)
  }

  /** Fresh, correctly signed messages that fit the limit are all kept. */
  lemma {:induction false} FreshMessagesAccumulate(limit: nat, ids: seq<Id>, ms: seq<Message>)
    requires Fresh(ids, ms) && |ids| <= limit
    ensures Run(limit, [], ms) == Trace(ids, ids)
  {
    if ms != [] {
      var m := |ms| - 1;
      FreshMessagesAccumulate(limit, ids[..m], ms[..m]);
      assert ids == ids[..m] + [ids[m]];
    }
  }

  lemma LastFreshIsMarked(limit: nat, ids: seq<Id>, ms: seq<Message>)
    requires Fresh(ids, ms) && |ids| == limit + 1
    ensures Run(limit, [], ms).seen == Mark(limit, ids[..limit], ids[limit])
  {
    FreshMessagesAccumulate(limit, ids[..limit], ms[..limit]);
    assert ids[limit] !in ids[..limit];
  }

  lemma HalvingForgets(limit: nat, ids: seq<Id>)
    requires limit >= 2 && Distinct(ids) && |ids| == limit + 1
    ensures ids[limit - limit / 2] !in Mark(limit, ids[..limit], ids[limit])
  {
    assert ids[..limit] + [ids[limit]] == ids;
    assert Mark(limit, ids[..limit], ids[limit]) == ids[|ids| - limit / 2..];
  }

  /**
    The bound is tight: after limit + 1 fresh messages, the one just outside the guaranteed window is accepted again.
   */
  lemma OlderReplayIsAccepted(limit: nat, ids: seq<Id>, ms: seq<Message>)
    requires limit >= 2 && Fresh(ids, ms) && |ids| == limit + 1
    ensures Verify(Run(limit, [], ms).seen, ms[limit - limit / 2]) == Accepted
  {
    LastFreshIsMarked(limit, ids, ms);
    HalvingForgets(limit, ids);
  }

  /** Only correctly signed messages enter the history. */
  lemma {:induction false} HistoryIsSigned(limit: nat, loaded: seq<Id>, ms: seq<Message>, id: Id)
    requires id in Run(limit, loaded, ms).history
    ensures id in loaded || Message(id, true) in ms
  {
    if ms != [] {
      var t, m := Run(limit, loaded, ms[..|ms| - 1]), ms[|ms| - 1];
      if id in t.history {
        HistoryIsSigned(limit, loaded, ms[..|ms| - 1], id);
      } else {
        VerdictIff(t.seen, m);
        assert m == Message(id, true);
      }
    }
  }
}
