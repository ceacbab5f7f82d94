/** The mains/battery source, and how a scan of the adapters is classified. */
module Power {
  import opened Basics

  datatype Source = AC | Battery | Unknown

  datatype EventType = ACConnected | ACDisconnected | ACUnknown

  function EventOf(s: Source): EventType {
    match s
    case AC => ACConnected
    case Battery => ACDisconnected
    case Unknown => ACUnknown
  }

  /** One mains adapter; `online` is `None` when its state could not be read. */
  datatype Adapter = Adapter(readable: bool, online: Option<bool>)

  predicate Online(a: Adapter) {
    a.readable && a.online == Some(true)
  }

  predicate Offline(a: Adapter) {
    a.readable && a.online == Some(false)
  }

  /** The documented rule: AC when some readable adapter is online, BATTERY when there are
      adapters and all are readable and offline, UNKNOWN otherwise. */
  function Classified(adapters: seq<Adapter>): Source {
    if exists a :: a in adapters && Online(a) then AC
    else if adapters != [] && forall a :: a in adapters ==> Offline(a) then Battery
    else Unknown
  }

  method Classify(adapters: seq<Adapter>) returns (source: Source)
    ensures source == Classified(adapters)
  {
    if |adapters| == 0 {
      return Unknown;
    }
    var anyOnline, unreadable := false, 0;
    for i := 0 to |adapters|
      invariant anyOnline <==> exists k :: 0 <= k < i && Online(adapters[k])
      invariant unreadable == 0 <==> forall k :: 0 <= k < i ==> Online(adapters[k]) || Offline(adapters[k])
      invariant unreadable >= 0
    {
      var a := adapters[i];
      if !a.readable || a.online.None? {
        unreadable := unreadable + 1;
        assert !Online(adapters[i]) && !Offline(adapters[i]);
        continue;
      }
      if a.online.value {
        anyOnline := true;
      }
    }
    if anyOnline {
      return AC;
    }
    if unreadable > 0 {
      ghost var k :| 0 <= k < |adapters| && !Online(adapters[k]) && !Offline(adapters[k]);
      assert adapters[k] in adapters;
      return Unknown;
    }
    assert forall k :: 0 <= k < |adapters| ==> Offline(adapters[k]);
    return Battery;
  }

  /** The order the adapters are listed in does not matter. */
  lemma ClassifiedIgnoresOrder(a: seq<Adapter>, b: seq<Adapter>)
    requires multiset(a) == multiset(b)
    ensures Classified(a) == Classified(b)
  {
    assert forall x :: x in a <==> x in multiset(a);
    assert forall x :: x in b <==> x in multiset(b);
    assert |a| == |multiset(a)| == |multiset(b)| == |b|;
  }
}
