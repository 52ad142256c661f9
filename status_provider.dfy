/**
 * The service-side registry `SerialStatusProvider`: the remote status
 * listeners, kept once per binder and dropped when their process dies, and
 * a separate table of client uids.
 *
 * A remote listener is known by the identity token `asBinder()` returns.
 * Whether `linkToDeath` succeeds (it fails with a `RemoteException` when the
 * binder is already dead) is passed in.  The death links currently held are
 * the set `links`.
 */
module StatusProvider {
  import opened Common

  /** The identity token of a binder. */
  type Binder = nat

  /** An `ISerialStatusListener` proxy; only its binder is observable. */
  datatype RemoteListener = RemoteListener(binder: Binder)

  /** How a call that may throw ends. */
  datatype Outcome = Done | NullPointer | RemoteFailure

  /** The death recipient `Listener`, wrapping one remote listener. */
  class Listener {
    const listener: RemoteListener

    constructor (listener: RemoteListener)
      ensures this.listener == listener
    {
      this.listener := listener;
    }
  }

  /** The binders of a list of listeners, in list order. */
  function Binders(ls: seq<Listener>): (r: seq<Binder>)
    ensures |r| == |ls|
    ensures forall i :: 0 <= i < |ls| ==> r[i] == ls[i].listener.binder
  {
    seq(|ls|, i requires 0 <= i < |ls| => ls[i].listener.binder)
  }

  /** No two entries share a binder. */
  predicate UniqueBinders(ls: seq<Listener>)
  {
    forall i, j :: 0 <= i < j < |ls| ==> ls[i].listener.binder != ls[j].listener.binder
  }

  /** The index of the first entry with binder `b`. */
  function FirstWithBinder(ls: seq<Listener>, b: Binder): (i: nat)
    requires b in Binders(ls)
    ensures i < |ls| && ls[i].listener.binder == b
    ensures forall j :: 0 <= j < i ==> ls[j].listener.binder != b
  {
    if ls[0].listener.binder == b then 0
    else
      assert Binders(ls)[1..] == Binders(ls[1..]);
      1 + FirstWithBinder(ls[1..], b)
  }

  /** `ArrayList.remove(Object)`: drop the first occurrence of `x`. */
  function RemoveFirst(s: seq<Listener>, x: Listener): (r: seq<Listener>)
    ensures x !in s ==> r == s
    ensures |r| == if x in s then |s| - 1 else |s|
    ensures forall y :: y in r ==> y in s
  {
    if s == [] then []
    else if s[0] == x then s[1..]
    else [s[0]] + RemoveFirst(s[1..], x)
  }

  /** Removing the first occurrence of an element that sits at index `i`
      and nowhere before it cuts exactly that index out. */
  lemma {:induction false} RemoveFirstAt(s: seq<Listener>, x: Listener, i: nat)
    requires i < |s| && s[i] == x && x !in s[..i]
    ensures RemoveFirst(s, x) == s[..i] + s[i + 1..]
  {
    if i > 0 {
      assert s[0] in s[..i];
      var t := s[1..];
      assert t[..i - 1] == s[1..i];
      assert x !in t[..i - 1];
      RemoveFirstAt(t, x, i - 1);
      assert t[i..] == s[i + 1..];
      assert s[..i] == [s[0]] + s[1..i];
    }
  }

  /** In a list without repeated entries, removing one entry leaves it
      absent and keeps every other entry. */
  lemma {:induction false} RemoveFirstDistinct(s: seq<Listener>, x: Listener)
    requires forall i, j :: 0 <= i < j < |s| ==> s[i] != s[j]
    ensures x !in RemoveFirst(s, x)
    ensures forall y :: y != x ==> (y in RemoveFirst(s, x) <==> y in s)
  {
    if s == [] {
    } else if s[0] != x {
      RemoveFirstDistinct(s[1..], x);
    } else {
      assert forall j :: 1 <= j < |s| ==> s[j] != s[0];
      assert forall y :: y in s[1..] <==> y in s && y != x;
    }
  }

  /** Removing an entry keeps the binders unique. */
  lemma {:induction false} RemoveFirstUnique(s: seq<Listener>, x: Listener)
    requires UniqueBinders(s)
    ensures UniqueBinders(RemoveFirst(s, x))
  {
    if s != [] && s[0] != x {
      var t := s[1..];
      RemoveFirstUnique(t, x);
      var r := RemoveFirst(t, x);
      forall y | y in r
        ensures y.listener.binder != s[0].listener.binder
      {
        var j :| 0 <= j < |t| && t[j] == y;
        assert s[j + 1] == y;
      }
      assert RemoveFirst(s, x) == [s[0]] + r;
    }
  }

  /** Entries with different binders are different objects. */
  lemma UniqueBindersDistinct(ls: seq<Listener>)
    requires UniqueBinders(ls)
    ensures forall i, j :: 0 <= i < j < |ls| ==> ls[i] != ls[j]
  {
  }

  class Provider {
    /** `mListeners` */
    var listeners: seq<Listener>
    /** the recipients currently linked to the death of their binder */
    var links: set<Listener>
    /** `mClientUids` */
    var clientUids: map<int, int>

    /** Binders are unique in the list, and exactly the listed recipients
        are linked. */
    ghost predicate Valid()
      reads this
    {
      UniqueBinders(listeners) && links == set l | l in listeners
    }

    constructor ()
      ensures Valid()
      ensures listeners == [] && links == {} && clientUids == map[]
    {
      listeners, links, clientUids := [], {}, map[];
    }

    /** `addListener(uid)`: a uid already present is left alone; otherwise
        it is entered with the value 0. */
    method AddListener(uid: int)
      modifies this
      ensures uid in old(clientUids) ==> clientUids == old(clientUids)
      ensures uid !in old(clientUids) ==> clientUids == old(clientUids)[uid := 0]
      ensures listeners == old(listeners) && links == old(links)
    {
      if uid in clientUids {
        return;
      }
      clientUids := clientUids[uid := 0];
    }

    /** `removeListener(uid)`: an absent uid is a no-op; otherwise it is
        deleted. */
    method RemoveListener(uid: int)
      modifies this
      ensures clientUids == old(clientUids) - {uid}
      ensures uid !in old(clientUids) ==> clientUids == old(clientUids)
      ensures listeners == old(listeners) && links == old(links)
    {
      if uid !in clientUids {
        return;
      }
      clientUids := clientUids - {uid};
    }

    /** `addSerialStatusListener`.  A null listener throws.  A listener whose
        binder is already listed is ignored.  Otherwise a new recipient is
        linked to the death of the binder and appended; if the binder is
        already dead, linking throws and nothing is added. */
    method AddSerialStatusListener(listener: Option<RemoteListener>, binderAlive: bool) returns (outcome: Outcome)
      requires Valid()
      modifies this
      ensures Valid()
      ensures clientUids == old(clientUids)
      ensures listener.None? ==> outcome == NullPointer && listeners == old(listeners)
      ensures listener.Some? && listener.value.binder in Binders(old(listeners)) ==>
                outcome == Done && listeners == old(listeners) && links == old(links)
      ensures listener.Some? && listener.value.binder !in Binders(old(listeners)) && !binderAlive ==>
                outcome == RemoteFailure && listeners == old(listeners) && links == old(links)
      ensures listener.Some? && listener.value.binder !in Binders(old(listeners)) && binderAlive ==>
                && outcome == Done
                && |listeners| == |old(listeners)| + 1 && listeners[..|old(listeners)|] == old(listeners)
                && var l := listeners[|old(listeners)|];
                && fresh(l) && l.listener == listener.value && links == old(links) + {l}
    {
      if listener.None? {
        return NullPointer;
      }
      var binder := listener.value.binder;
      var size := |listeners|;
      for i := 0 to size
        invariant forall j :: 0 <= j < i ==> listeners[j].listener.binder != binder
      {
        if binder == listeners[i].listener.binder {
          return Done;
        }
      }
      var l := new Listener(listener.value);
      if !binderAlive {
        return RemoteFailure;
      }
      links := links + {l};
      listeners := listeners + [l];
      outcome := Done;
    }

    /** `removeSerialStatusListener`.  A null listener throws.  Otherwise the
        first entry with the listener's binder, if any, is removed and
        unlinked. */
    method RemoveSerialStatusListener(listener: Option<RemoteListener>) returns (outcome: Outcome)
      requires Valid()
      modifies this
      ensures Valid()
      ensures clientUids == old(clientUids)
      ensures listener.None? ==> outcome == NullPointer && listeners == old(listeners)
      ensures listener.Some? ==> outcome == Done && listener.value.binder !in Binders(listeners)
      ensures listener.Some? && listener.value.binder !in Binders(old(listeners)) ==>
                listeners == old(listeners) && links == old(links)
      ensures listener.Some? && listener.value.binder in Binders(old(listeners)) ==>
                var i := FirstWithBinder(old(listeners), listener.value.binder);
                && listeners == old(listeners)[..i] + old(listeners)[i + 1..]
                && links == old(links) - {old(listeners)[i]}
    {
      if listener.None? {
        return NullPointer;
      }
      var binder := listener.value.binder;
      var found: Listener? := null;
      var size := |listeners|;
      var i := 0;
      while i < size && found == null
        invariant 0 <= i <= size
        invariant found == null ==> forall j :: 0 <= j < i ==> listeners[j].listener.binder != binder
        invariant found != null ==> 0 < i && found == listeners[i - 1] && found.listener.binder == binder
                                    && forall j :: 0 <= j < i - 1 ==> listeners[j].listener.binder != binder
      {
        var test := listeners[i];
        if binder == test.listener.binder {
          found := test;
        }
        i := i + 1;
      }
      if found != null {
        ghost var k := i - 1;
        assert k == FirstWithBinder(listeners, binder);
        UniqueBindersDistinct(listeners);
        assert found !in listeners[..k];
        RemoveFirstAt(listeners, found, k);
        RemoveFirstDistinct(listeners, found);
        RemoveFirstUnique(listeners, found);
        listeners := RemoveFirst(listeners, found);
        links := links - {found};
      }
      outcome := Done;
    }

    /** `Listener.binderDied`: drop the dead recipient from the list and
        unlink it.  A recipient that `removeSerialStatusListener` already
        removed is no longer listed, and nothing changes. */
    method BinderDied(l: Listener)
      requires Valid()
      modifies this
      ensures Valid()
      ensures l !in old(links) ==> listeners == old(listeners) && links == old(links)
      ensures listeners == RemoveFirst(old(listeners), l)
      ensures l !in listeners && forall m :: m != l ==> (m in listeners <==> m in old(listeners))
      ensures links == old(links) - {l} && clientUids == old(clientUids)
    {
      UniqueBindersDistinct(listeners);
      RemoveFirstDistinct(listeners, l);
      RemoveFirstUnique(listeners, l);
      listeners := RemoveFirst(listeners, l);
      links := links - {l};
      assert links == set m | m in listeners;
    }
  }
}
