/** The rolling window of recent selections: a bounded history and the count index kept beside it. */
module ShareTracker {
  import opened Basics

  /** What a borrowed tracker shows. */
  datatype Window = Window(capacity: nat, history: seq<string>, counts: map<string, nat>)

  /** The index is exactly the multiset of the history, without zero entries. */
  ghost predicate IsIndex(counts: map<string, nat>, history: seq<string>) {
    && (forall p :: p in counts <==> p in multiset(history))
    && (forall p :: p in counts ==> counts[p] == multiset(history)[p])
  }

  ghost predicate WellFormed(w: Window) {
    w.capacity > 0 && |w.history| <= w.capacity && IsIndex(w.counts, w.history)
  }

  lemma IndexWithoutOldest(counts: map<string, nat>, history: seq<string>)
    requires IsIndex(counts, history) && history != []
    ensures history[0] in counts && counts[history[0]] > 0
    ensures var left := counts[history[0]] - 1;
            IsIndex(if left == 0 then counts - {history[0]} else counts[history[0] := left], history[1..])
  {
    var oldest := history[0];
    assert multiset(history) == multiset{oldest} + multiset(history[1..]) by {
      assert history == [oldest] + history[1..];
    }
    assert oldest in multiset(history);
  }

  lemma IndexWithNewest(counts: map<string, nat>, history: seq<string>, provider: string)
    requires IsIndex(counts, history)
    ensures IsIndex(counts[provider := (if provider in counts then counts[provider] else 0) + 1], history + [provider])
  {
    assert multiset(history + [provider]) == multiset(history) + multiset{provider};
  }

  function Count(w: Window, provider: string): nat {
    if provider in w.counts then w.counts[provider] else 0
  }

  lemma CountIsExact(w: Window, provider: string)
    requires WellFormed(w)
    ensures Count(w, provider) == multiset(w.history)[provider]
  {}

  function Ceil(x: real): int {
    -((-x).Floor)
  }

  function Share(w: Window, provider: string): real {
    if w.history == [] then 0.0 else Count(w, provider) as real / |w.history| as real
  }

  function Quota(maxShare: real, length: nat): int {
    Ceil(maxShare * length as real)
  }

  function NextLength(w: Window): nat {
    if |w.history| + 1 <= w.capacity then |w.history| + 1 else w.capacity
  }

  predicate Expires(w: Window, provider: string) {
    |w.history| == w.capacity && w.history != [] && w.history[0] == provider
  }

  predicate AllowsNext(w: Window, provider: string, maxShare: real) {
    Count(w, provider) + 1 - (if Expires(w, provider) then 1 else 0) <= Quota(maxShare, NextLength(w))
  }

  predicate IsMaximum(m: nat, values: set<nat>) {
    m in values && forall v <- values :: v <= m
  }

  lemma {:induction false} MaximumExists(values: set<nat>)
    requires values != {}
    ensures exists m :: IsMaximum(m, values)
  {
    var some :| some in values;
    var rest := values - {some};
    if rest == {} {
      forall v <- values ensures v <= some { assert v !in rest; }
      assert IsMaximum(some, values);
    } else {
      MaximumExists(rest);
      var m :| IsMaximum(m, rest);
      var larger := if m < some then some else m;
      forall v <- values ensures v <= larger { assert v == some || v in rest; }
      assert IsMaximum(larger, values);
    }
  }

  function Maximum(values: set<nat>): (m: nat)
    requires values != {}
    ensures IsMaximum(m, values)
  {
    MaximumExists(values);
    var m :| IsMaximum(m, values);
    m
  }

  /** The most recent entry of the first `n` with the given count. */
  function MostRecent(w: Window, n: nat, count: nat): Option<string>
    requires n <= |w.history|
  {
    if n == 0 then None
    else if Count(w, w.history[n - 1]) == count then Some(w.history[n - 1])
    else MostRecent(w, n - 1, count)
  }

  function Incumbent(w: Window): Option<string> {
    if w.counts == map[] then None
    else
      assert exists p :: p in w.counts by { assert w.counts.Keys != {}; }
      assert w.counts.Values != {} by { var p :| p in w.counts; assert w.counts[p] in w.counts.Values; }
      MostRecent(w, |w.history|, Maximum(w.counts.Values))
  }

  lemma {:induction false} MostRecentIsLast(w: Window, n: nat, count: nat)
    requires n <= |w.history|
    ensures match MostRecent(w, n, count)
            case None => forall i :: 0 <= i < n ==> Count(w, w.history[i]) != count
            case Some(p) => exists i :: 0 <= i < n && w.history[i] == p && Count(w, p) == count
                              && forall j :: i < j < n ==> Count(w, w.history[j]) != count
  {
    if n > 0 && Count(w, w.history[n - 1]) != count {
      MostRecentIsLast(w, n - 1, count);
    }
  }

  /** The incumbent has the largest count, and among the largest it was selected last; only an empty window has none. */
  lemma IncumbentMeaning(w: Window)
    requires WellFormed(w)
    ensures match Incumbent(w)
            case None => w.history == []
            case Some(p) => exists i :: 0 <= i < |w.history| && w.history[i] == p
                              && (forall q :: multiset(w.history)[q] <= multiset(w.history)[p])
                              && forall j :: i < j < |w.history| ==>
                                   multiset(w.history)[w.history[j]] < multiset(w.history)[p]
  {
    if w.counts == map[] {
      assert multiset(w.history) == multiset{};
      assert |multiset(w.history)| == |w.history|;
    } else {
      var p0 :| p0 in w.counts;
      assert w.counts[p0] in w.counts.Values;
      var top := Maximum(w.counts.Values);
      forall q ensures Count(w, q) <= top && Count(w, q) == multiset(w.history)[q] {
        CountIsExact(w, q);
        if q in w.counts { assert w.counts[q] in w.counts.Values; }
      }
      var holder :| holder in w.counts && w.counts[holder] == top;
      assert holder in w.history;
      MostRecentIsLast(w, |w.history|, top);
    }
  }

  /** The history after one more selection. */
  function Slide(history: seq<string>, capacity: nat, provider: string): seq<string> {
    (if |history| == capacity && history != [] then history[1..] else history) + [provider]
  }

  class ShareTracker {
    const capacity: nat
    var history: seq<string>
    var counts: map<string, nat>

    function View(): Window
      reads this
    {
      Window(capacity, history, counts)
    }

    ghost predicate Valid()
      reads this
    {
      WellFormed(View())
    }

    constructor (capacity: nat)
      requires capacity > 0
      ensures Valid() && this.capacity == capacity && history == []
    {
      this.capacity := capacity;
      history, counts := [], map[];
    }

    /** A tracker moved out of a table. */
    constructor Of(w: Window)
      requires WellFormed(w)
      ensures Valid() && View() == w && capacity == w.capacity
    {
      capacity, history, counts := w.capacity, w.history, w.counts;
    }

    /** Pushes a selection and forgets the oldest one of a full window; the index stays exact. */
    method Record(provider: string)
      requires Valid()
      modifies this
      ensures Valid()
      ensures history == Slide(old(history), capacity, provider)
    {
      hide IsIndex;
      if |history| == capacity {
        IndexWithoutOldest(counts, history);
        var expired := history[0];
        history := history[1..];
        var count := counts[expired] - 1;
        if count == 0 {
          counts := counts - {expired};
        } else {
          counts := counts[expired := count];
        }
      }
      IndexWithNewest(counts, history, provider);
      counts := counts[provider := Count(View(), provider) + 1];
      history := history + [provider];
    }
  }
}
