/** FIFOQueue: a slice of keys and a map from key to value.  A key whose value is gone leaves a
    stale slot behind in the slice, which Pop and Front skip. */
module Fifo {
  import opened Common

  // ---------------------------------------------------------------- the queue it stands for

  function Keys(slots: seq<string>): set<string> {
    set k | k in slots
  }

  /** The entries in the order in which Pop returns them: live keys, by their first slot. */
  function Contents<T>(slots: seq<string>, live: map<string, T>): seq<(string, T)> {
    if slots == [] then []
    else if slots[0] in live then
      [(slots[0], live[slots[0]])] + Contents(slots[1..], live - {slots[0]})
    else Contents(slots[1..], live)
  }

  /** Every live key has a slot. */
  predicate Covered<T>(slots: seq<string>, live: map<string, T>) {
    forall k | k in live :: k in slots
  }

  /** Slots and live entries after one Pop. */
  function AfterPop<T>(slots: seq<string>, live: map<string, T>): (seq<string>, map<string, T>) {
    if slots == [] then (slots, live)
    else if slots[0] in live then (slots[1..], live - {slots[0]})
    else AfterPop(slots[1..], live)
  }

  /** A Pop takes exactly the first entry. */
  lemma {:induction false} PopTakesFirst<T>(slots: seq<string>, live: map<string, T>)
    ensures var c := Contents(slots, live); var (slots', live') := AfterPop(slots, live);
            && Contents(slots', live') == (if c == [] then [] else c[1..])
            && (if c == [] then live' == live else c[0].0 in live && live' == live - {c[0].0})
  {
    if slots != [] && slots[0] !in live {
      PopTakesFirst(slots[1..], live);
    }
  }

  /** The slots in front of the first slot of k, all of them when k has none. */
  function InFront(slots: seq<string>, k: string): (front: seq<string>)
    ensures front <= slots && k !in front
    ensures k in slots <==> |front| < |slots|
    ensures |front| < |slots| ==> slots[|front|] == k
  {
    if slots == [] || slots[0] == k then [] else [slots[0]] + InFront(slots[1..], k)
  }

  /** The entries other than k that stand behind the first slot of k. */
  function Behind<T>(slots: seq<string>, live: map<string, T>, k: string): seq<(string, T)> {
    var front := InFront(slots, k);
    Contents(slots[|front|..], live - Keys(front) - {k})
  }

  lemma {:induction false} ContentsSplit<T>(a: seq<string>, b: seq<string>, live: map<string, T>)
    ensures Contents(a + b, live) == Contents(a, live) + Contents(b, live - Keys(a))
  {
    if a == [] {
      assert a + b == b && live - Keys(a) == live;
    } else {
      assert (a + b)[1..] == a[1..] + b;
      if a[0] in live {
        ContentsSplit(a[1..], b, live - {a[0]});
        assert live - {a[0]} - Keys(a[1..]) == live - Keys(a);
      } else {
        ContentsSplit(a[1..], b, live);
        assert live - Keys(a[1..]) == live - Keys(a);
      }
    }
  }

  /** Keys without a slot do not show. */
  lemma {:induction false} NoSlotNoEntry<T>(slots: seq<string>, live: map<string, T>, live': map<string, T>)
    requires forall k | k in slots :: (k in live <==> k in live') && (k in live ==> live[k] == live'[k])
    ensures Contents(slots, live) == Contents(slots, live')
  {
    if slots != [] {
      if slots[0] in live {
        NoSlotNoEntry(slots[1..], live - {slots[0]}, live' - {slots[0]});
      } else {
        NoSlotNoEntry(slots[1..], live, live');
      }
    }
  }

  /** The sequence holds each entry of the map exactly once, and nothing else. */
  predicate ListsOnce<T(==)>(c: seq<(string, T)>, live: map<string, T>) {
    && |c| == |live|
    && (forall k | k in live :: (k, live[k]) in c)
    && (forall i | 0 <= i < |c| :: c[i].0 in live && live[c[i].0] == c[i].1)
    && (forall i, j | 0 <= i < j < |c| :: c[i].0 != c[j].0)
  }

  lemma OneMoreLive<T>(live: map<string, T>, k: string)
    requires k in live
    ensures |live| == |live - {k}| + 1
  {
    assert live.Keys == (live - {k}).Keys + {k};
  }

  lemma OneMoreEntry<T>(d: seq<(string, T)>, live: map<string, T>, k: string, q: string)
    requires q == k || (q in live && (q, live[q]) in d)
    requires k in live
    ensures (q, live[q]) in [(k, live[k])] + d
  {
    if q == k { assert ([(k, live[k])] + d)[0] == (k, live[k]); }
  }

  lemma OneMoreListed<T>(d: seq<(string, T)>, live: map<string, T>, k: string)
    requires k in live && ListsOnce(d, live - {k})
    ensures ListsOnce([(k, live[k])] + d, live)
  {
    var rest, c := live - {k}, [(k, live[k])] + d;
    OneMoreLive(live, k);
    forall j | 1 <= j < |c| ensures c[j] == d[j - 1] && c[j].0 in rest && rest[c[j].0] == c[j].1 {}
    forall q | q in live ensures (q, live[q]) in c {
      if q != k { assert q in rest && (q, rest[q]) in d; }
      OneMoreEntry(d, live, k, q);
    }
  }

  /** The contents hold each live entry exactly once, and nothing else. */
  lemma {:induction false} ContentsExact<T>(slots: seq<string>, live: map<string, T>)
    requires Covered(slots, live)
    ensures ListsOnce(Contents(slots, live), live)
  {
    if slots == [] {
      assert live == map[];
    } else if slots[0] in live {
      ContentsExact(slots[1..], live - {slots[0]});
      OneMoreListed(Contents(slots[1..], live - {slots[0]}), live, slots[0]);
    } else {
      ContentsExact(slots[1..], live);
    }
  }

  /** Pushing k onto slots that start with k, or onto none. */
  lemma PushOntoOwnSlot<T>(tail: seq<string>, live: map<string, T>, k: string, v: T)
    requires tail == [] || tail[0] == k
    ensures Contents(tail + [k], live[k := v]) == [(k, v)] + Contents(tail, live - {k})
  {
    if tail == [] {
      assert tail + [k] == [k];
    } else {
      var rest := tail[1..];
      assert (tail + [k])[1..] == rest + [k];
      assert live[k := v] - {k} == live - {k};
      ContentsSplit(rest, [k], live - {k});
      assert Contents([k], live - {k} - Keys(rest)) == [];
    }
  }

  lemma OwnSlot<T>(tail: seq<string>, live: map<string, T>, k: string)
    requires tail == [] || tail[0] == k
    ensures Contents(tail, live) == Entry(live, k, tail != []) + Contents(tail, live - {k})
  {
    if k !in live {
      assert live - {k} == live;
    }
  }

  function Entry<T>(live: map<string, T>, k: string, slotted: bool): seq<(string, T)> {
    if k in live && slotted then [(k, live[k])] else []
  }

  /** The contents, cut at the first slot of k. */
  lemma ContentsAround<T>(slots: seq<string>, live: map<string, T>, k: string)
    ensures Contents(slots, live)
            == Contents(InFront(slots, k), live) + Entry(live, k, k in slots) + Behind(slots, live, k)
  {
    hide Contents, InFront;
    var front := InFront(slots, k);
    var tail := slots[|front|..];
    assert front + tail == slots;
    ContentsSplit(front, tail, live);
    OwnSlot(tail, live - Keys(front), k);
    assert Entry(live - Keys(front), k, tail != []) == Entry(live, k, k in slots);
  }

  /** Where a pushed entry goes, for any key: to the first slot its key already has, or to the end.
      A live entry of the same key is replaced in place. */
  lemma PushPlaces<T>(slots: seq<string>, live: map<string, T>, k: string, v: T)
    ensures Contents(slots + [k], live[k := v])
            == Contents(InFront(slots, k), live) + [(k, v)] + Behind(slots, live, k)
  {
    hide Contents, InFront;
    var front := InFront(slots, k);
    var tail := slots[|front|..];
    var after := live - Keys(front);
    assert front + (tail + [k]) == slots + [k];
    ContentsSplit(front, tail + [k], live[k := v]);
    NoSlotNoEntry(front, live, live[k := v]);
    assert live[k := v] - Keys(front) == after[k := v];
    PushOntoOwnSlot(tail, after, k, v);
  }

  lemma {:induction false} KeysOfContents<T>(slots: seq<string>, live: map<string, T>)
    ensures forall e | e in Contents(slots, live) :: e.0 in live
  {
    if slots != [] {
      KeysOfContents(slots[1..], if slots[0] in live then live - {slots[0]} else live);
    }
  }

  /** Push is an append exactly when the key is not live and no entry stands behind a stale slot of
      it; a key that was never pushed before always qualifies. */
  lemma PushAppendsExactly<T>(slots: seq<string>, live: map<string, T>, k: string, v: T)
    requires Covered(slots, live)
    ensures Contents(slots + [k], live[k := v]) == Contents(slots, live) + [(k, v)]
            <==> k !in live && Behind(slots, live, k) == []
    ensures k !in slots ==> k !in live && Behind(slots, live, k) == []
  {
    PushPlaces(slots, live, k, v);
    ContentsAround(slots, live, k);
    var f, b := Contents(InFront(slots, k), live), Behind(slots, live, k);
    KeysOfContents(slots[|InFront(slots, k)|..], live - Keys(InFront(slots, k)) - {k});
    if k !in live && b != [] {
      var c := f + [(k, v)] + b;
      assert c[|f|] == (k, v);
      assert (f + b + [(k, v)])[|f|] == b[0];
      assert b[0] in b;
    } else if k !in live {
      assert f + [(k, v)] + b == f + b + [(k, v)];
    } else {
      assert |f + [(k, v)] + b| != |f + [(k, live[k])] + b + [(k, v)]|;
    }
  }

  function AfterPush<T>(q: (seq<string>, map<string, T>), k: string, v: T): (seq<string>, map<string, T>) {
    (q.0 + [k], q.1[k := v])
  }

  /** Push a, push b, push a, pop, push c, push a: the last a takes the slot that the second push of
      a left behind, and overtakes c, which was pushed before it. */
  lemma RepushOvertakes<T>(a: string, b: string, c: string, v: T)
    requires a != b && a != c && b != c
    ensures var empty: (seq<string>, map<string, T>) := ([], map[]);
            var filled := AfterPush(AfterPush(AfterPush(empty, a, v), b, v), a, v);
            var popped := AfterPop(filled.0, filled.1);
            var last := AfterPush(AfterPush(popped, c, v), a, v);
            Contents(last.0, last.1) == [(b, v), (a, v), (c, v)]
  {
    var empty: (seq<string>, map<string, T>) := ([], map[]);
    var filled := AfterPush(AfterPush(AfterPush(empty, a, v), b, v), a, v);
    assert filled.0 == [a, b, a] && filled.1 == map[a := v, b := v];
    var popped := AfterPop(filled.0, filled.1);
    assert popped == ([b, a], map[b := v]) by {
      assert [a, b, a][1..] == [b, a] && map[a := v, b := v] - {a} == map[b := v];
    }
    var last := AfterPush(AfterPush(popped, c, v), a, v);
    assert last.0 == [b, a, c, a] && last.1 == map[b := v, c := v, a := v];
    OvertakenContents(a, b, c, v);
  }

  lemma OvertakenContents<T>(a: string, b: string, c: string, v: T)
    requires a != b && a != c && b != c
    ensures Contents([b, a, c, a], map[b := v, c := v, a := v]) == [(b, v), (a, v), (c, v)]
  {
    var live := map[b := v, c := v, a := v];
    var slots := [b, a, c, a];
    assert slots[1..] == [a, c, a] && slots[1..][1..] == [c, a] && slots[1..][1..][1..] == [a];
    assert Contents([a], live - {b} - {a} - {c}) == [];
    assert Contents([c, a], live - {b} - {a}) == [(c, v)];
    assert Contents([a, c, a], live - {b}) == [(a, v), (c, v)];
  }

  // ---------------------------------------------------------------- the class

  class FIFOQueue<T> {
    var appGroup: map<string, T>
    var queue: seq<string>

    ghost predicate Valid()
      reads this
    {
      Covered(queue, appGroup)
    }

    ghost function Entries(): seq<(string, T)>
      reads this
    {
      Contents(queue, appGroup)
    }

    constructor ()
      ensures Valid() && Entries() == [] && queue == [] && appGroup == map[]
    {
      appGroup := map[];
      queue := [];
    }

    method Push(key: string, value: T)
      requires Valid()
      modifies this
      ensures Valid()
      ensures queue == old(queue) + [key] && appGroup == old(appGroup)[key := value]
      ensures key !in old(queue) ==> Entries() == old(Entries()) + [(key, value)]
      ensures Entries() == Contents(InFront(old(queue), key), old(appGroup)) + [(key, value)]
                           + Behind(old(queue), old(appGroup), key)
    {
      PushPlaces(queue, appGroup, key, value);
      PushAppendsExactly(queue, appGroup, key, value);
      appGroup := appGroup[key := value];
      queue := queue + [key];
    }

    /** None stands for ErrEmptyQueue; the key is then the last one dropped. */
    method Pop() returns (value: Option<T>, key: string)
      requires Valid()
      modifies this
      ensures Valid()
      ensures value.None? <==> old(appGroup) == map[]
      ensures value.None? ==> queue == [] && appGroup == map[]
      ensures value.None? ==> key == if old(queue) == [] then "" else old(queue)[|old(queue)| - 1]
      ensures value.Some? ==> old(Entries()) == [(key, value.value)] + Entries()
      ensures value.Some? ==> appGroup == old(appGroup) - {key}
      ensures (queue, appGroup) == AfterPop(old(queue), old(appGroup))
    {
      key := "";
      while |queue| > 0
        invariant AfterPop(queue, appGroup) == AfterPop(old(queue), old(appGroup))
        invariant Valid() && appGroup == old(appGroup) && Entries() == old(Entries())
        invariant |queue| <= |old(queue)| && queue == old(queue)[|old(queue)| - |queue|..]
        invariant key == if |queue| == |old(queue)| then "" else old(queue)[|old(queue)| - |queue| - 1]
        decreases |queue|
      {
        key, queue := queue[0], queue[1..];
        if key in appGroup {
          value := Some(appGroup[key]);
          appGroup := appGroup - {key};
          return;
        }
      }
      return None, key;
    }

    /** Front drops stale slots but leaves the queue it stands for alone. */
    method Front() returns (value: Option<T>, key: string)
      requires Valid()
      modifies this
      ensures Valid() && Entries() == old(Entries()) && appGroup == old(appGroup)
      ensures value.None? <==> old(appGroup) == map[]
      ensures value.Some? ==> Entries() != [] && Entries()[0] == (key, value.value)
      ensures value.Some? ==> queue != [] && queue[0] == key
      ensures value.None? ==> key == if old(queue) == [] then "" else old(queue)[|old(queue)| - 1]
    {
      key := "";
      while |queue| > 0
        invariant Valid() && appGroup == old(appGroup) && Entries() == old(Entries())
        invariant |queue| <= |old(queue)| && queue == old(queue)[|old(queue)| - |queue|..]
        invariant key == if |queue| == |old(queue)| then "" else old(queue)[|old(queue)| - |queue| - 1]
        decreases |queue|
      {
        key := queue[0];
        if key in appGroup {
          return Some(appGroup[key]), key;
        }
        queue := queue[1..];
      }
      return None, key;
    }

    method Get() returns (r: map<string, T>)
      ensures r == appGroup
    {
      r := appGroup;
    }
  }

  /** The next Pop returns what Front returned. */
  method FrontThenPop<T>(q: FIFOQueue<T>)
    returns (seen: Option<T>, seenKey: string, popped: Option<T>, poppedKey: string)
    requires q.Valid()
    modifies q
    ensures q.Valid()
    ensures seen == popped && (seen.Some? ==> seenKey == poppedKey)
    ensures seen.Some? ==> old(q.Entries()) == [(seenKey, seen.value)] + q.Entries()
  {
    seen, seenKey := q.Front();
    popped, poppedKey := q.Pop();
  }
}
