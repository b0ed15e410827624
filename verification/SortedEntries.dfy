/** std::set<std::pair<Timestamp, Timer*>> as a strictly increasing sequence: include/TimerQueue.h. */
module SortedEntries {

  /** A time in microseconds and the address of a timer. */
  datatype Entry = Entry(when: int, addr: nat)

  /** The order of std::pair: by time, then by address. */
  predicate Less(a: Entry, b: Entry) {
    a.when < b.when || (a.when == b.when && a.addr < b.addr)
  }

  predicate Sorted(es: seq<Entry>) {
    forall i, j :: 0 <= i < j < |es| ==> Less(es[i], es[j])
  }

  /** lower_bound: how many entries lie before e. */
  function LowerBound(es: seq<Entry>, e: Entry): (k: nat)
    ensures k <= |es|
    ensures forall i :: 0 <= i < k ==> Less(es[i], e)
    ensures k < |es| ==> !Less(es[k], e)
  {
    if es == [] || !Less(es[0], e) then 0 else 1 + LowerBound(es[1..], e)
  }

  lemma LowerBoundSplits(es: seq<Entry>, e: Entry)
    requires Sorted(es)
    ensures forall i :: LowerBound(es, e) <= i < |es| ==> !Less(es[i], e)
  {
    var k := LowerBound(es, e);
    forall i | k <= i < |es|
      ensures !Less(es[i], e)
    {
      if k < i { assert Less(es[k], es[i]); }
    }
  }

  function Insert(es: seq<Entry>, e: Entry): (r: seq<Entry>)
    ensures forall x :: x in r <==> x == e || x in es
  {
    var k := LowerBound(es, e);
    assert es == es[..k] + es[k..];
    es[..k] + [e] + es[k..]
  }

  function Erase(es: seq<Entry>, e: Entry): seq<Entry> {
    if es == [] then [] else if es[0] == e then es[1..] else [es[0]] + Erase(es[1..], e)
  }

  lemma InsertSorted(es: seq<Entry>, e: Entry)
    requires Sorted(es) && e !in es
    ensures Sorted(Insert(es, e)) && |Insert(es, e)| == |es| + 1
    ensures Insert(es, e)[0] == if es == [] || Less(e, es[0]) then e else es[0]
  {
    var k := LowerBound(es, e);
    LowerBoundSplits(es, e);
    var r := Insert(es, e);
    forall i, j | 0 <= i < j < |r|
      ensures Less(r[i], r[j])
    {
      if j == k { assert r[i] == es[i]; }
      if i == k { assert r[j] == es[j - 1]; assert es[j - 1] in es; }
    }
  }

  lemma {:induction false} EraseSorted(es: seq<Entry>, e: Entry)
    requires Sorted(es) && e in es
    ensures Sorted(Erase(es, e)) && |Erase(es, e)| == |es| - 1
    ensures forall x :: x in Erase(es, e) <==> x in es && x != e
    ensures Erase(es, e) != [] ==> es[0] == Erase(es, e)[0] || Less(es[0], Erase(es, e)[0])
  {
    var tail := es[1..];
    assert es == [es[0]] + tail;
    if es[0] == e {
      forall x | x in tail
        ensures x != e
      {
        var i :| 0 <= i < |tail| && tail[i] == x;
        assert Less(es[0], es[i + 1]);
      }
    } else {
      EraseSorted(tail, e);
      var r := Erase(es, e);
      assert r == [es[0]] + Erase(tail, e);
      forall i, j | 0 <= i < j < |r|
        ensures Less(r[i], r[j])
      {
        if i == 0 {
          assert r[j] in Erase(tail, e);
          var m :| 0 <= m < |tail| && tail[m] == r[j];
          assert Less(es[0], es[m + 1]);
        } else {
          assert Less(Erase(tail, e)[i - 1], Erase(tail, e)[j - 1]);
        }
      }
    }
  }

  lemma SplitSorted(es: seq<Entry>, k: nat)
    requires Sorted(es) && k <= |es|
    ensures Sorted(es[..k]) && Sorted(es[k..])
    ensures forall x :: x in es <==> x in es[..k] || x in es[k..]
    ensures forall x :: x in es[..k] ==> x !in es[k..]
  {
    assert es == es[..k] + es[k..];
    assert forall i, j :: 0 <= i < k <= j < |es| ==> Less(es[i], es[j]);
  }
}
