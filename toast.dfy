/** The toast notifications: a process-wide registry of listeners, a broadcast
    that hands each new toast to every registered listener, and containers that
    append the toasts they receive and drop them by id. */
module Toast {
  import opened Seqs

  datatype ToastType = Success | Error | Info

  datatype ToastMessage = ToastMessage(id: string, message: string, kind: ToastType)

  /** `toasts.filter(t => t.id !== id)`. */
  function WithoutToast(toasts: seq<ToastMessage>, id: string): (r: seq<ToastMessage>)
    ensures forall i :: 0 <= i < |r| ==> r[i].id != id
    ensures forall i :: 0 <= i < |toasts| && toasts[i].id != id ==> toasts[i] in r
  {
    Filter((t: ToastMessage) => t.id != id, toasts)
  }

  /** Dismissing keeps the other toasts in their order: it distributes over any split. */
  lemma DismissKeepsOrder(a: seq<ToastMessage>, b: seq<ToastMessage>, id: string)
    ensures WithoutToast(a + b, id) == WithoutToast(a, id) + WithoutToast(b, id)
  {
    FilterAppend((t: ToastMessage) => t.id != id, a, b);
  }

  /** Dismissing an id that no toast carries changes nothing. */
  lemma DismissUnknownId(toasts: seq<ToastMessage>, id: string)
    requires forall i :: 0 <= i < |toasts| ==> toasts[i].id != id
    ensures WithoutToast(toasts, id) == toasts
  {
    FilterKeepsAll((t: ToastMessage) => t.id != id, toasts);
  }

  /** One mounted `ToastContainer` and the toasts it shows. */
  class ToastContainer {
    var toasts: seq<ToastMessage>

    constructor ()
      ensures toasts == []
    {
      toasts := [];
    }

    /** The container's listener: the new toast goes after the ones shown. */
    method Receive(toast: ToastMessage)
      modifies this
      ensures toasts == old(toasts) + [toast]
    {
      toasts := toasts + [toast];
    }

    /** `removeToast(id)`, run when a toast closes. */
    method RemoveToast(id: string)
      modifies this
      ensures toasts == WithoutToast(old(toasts), id)
    {
      toasts := WithoutToast(toasts, id);
    }
  }

  /** The listener closure one mount of a container registers; each mount
      creates a new one, so listeners are told apart by identity. */
  class Listener {
    const container: ToastContainer

    constructor (container: ToastContainer)
      ensures this.container == container
    {
      this.container := container;
    }
  }

  /** The containers the listeners deliver to, in registration order. */
  function Targets(listeners: seq<Listener>): (r: seq<ToastContainer>)
    ensures |r| == |listeners|
    ensures forall i :: 0 <= i < |listeners| ==> r[i] == listeners[i].container
  {
    seq(|listeners|, i requires 0 <= i < |listeners| => listeners[i].container)
  }

  /** When every container is registered once, each receives a broadcast once. */
  lemma RegisteredOnceReceivesOnce(targets: seq<ToastContainer>, c: ToastContainer)
    requires forall i, j :: 0 <= i < j < |targets| ==> targets[i] != targets[j]
    requires c in targets
    ensures multiset(targets)[c] == 1
  {
    if targets != [] {
      assert targets == [targets[0]] + targets[1..];
      if targets[0] == c {
        assert c !in targets[1..];
      } else {
        RegisteredOnceReceivesOnce(targets[1..], c);
      }
    }
  }

  /** The module-level `toastListeners` array. */
  class ToastRegistry {
    var listeners: seq<Listener>

    constructor ()
      ensures listeners == []
    {
      listeners := [];
    }

    /** The mount effect of a container: a fresh listener is pushed at the end. */
    method Subscribe(container: ToastContainer) returns (listener: Listener)
      modifies this
      ensures fresh(listener) && listener.container == container
      ensures listeners == old(listeners) + [listener]
    {
      listener := new Listener(container);
      listeners := listeners + [listener];
    }

    /** The effect's cleanup: exactly that listener goes, the others stay in order. */
    method Unsubscribe(listener: Listener)
      modifies this
      ensures listeners == Filter((l: Listener) => l != listener, old(listeners))
      ensures listener !in listeners
    {
      listeners := Filter((l: Listener) => l != listener, listeners);
    }

    /** `showToast(message, type)`: the same toast, with the given id, is handed
        to every registered listener; a container registered k times receives it
        k times, and no other container changes. */
    method ShowToast(message: string, kind: ToastType := Info, nameonly id: string)
      modifies set l | l in listeners :: l.container
      ensures listeners == old(listeners)
      ensures forall c :: c in Targets(listeners) ==>
        c.toasts == old(c.toasts) + Repeat(ToastMessage(id, message, kind), multiset(Targets(listeners))[c])
    {
      var toast := ToastMessage(id, message, kind);
      ghost var targets := Targets(listeners);
      var i := 0;
      while i < |listeners|
        invariant 0 <= i <= |listeners|
        invariant forall c :: c in targets ==>
          c.toasts == old(c.toasts) + Repeat(toast, multiset(targets[..i])[c])
      {
        var receiver := listeners[i].container;
        assert targets[..i + 1] == targets[..i] + [receiver];
        label BeforeDelivery:
        receiver.Receive(toast);
        forall c | c in targets
          ensures c.toasts == old(c.toasts) + Repeat(toast, multiset(targets[..i + 1])[c])
        {
          if c == receiver {
            assert c.toasts == old@BeforeDelivery(c.toasts) + [toast];
          } else {
            assert c.toasts == old@BeforeDelivery(c.toasts);
          }
        }
        i := i + 1;
      }
      assert targets[..i] == targets;
    }
  }
}
