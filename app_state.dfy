/** The application shell: the list of notifications every page adds to,
    with removal on dismissal and 4000 ms after adding, and the sidebar flag
    of the mobile layout. The clock reading that becomes a toast's id is a
    parameter, and the expiry of a timer is an explicit event. */
module App {
  import opened Common

  datatype Toast = Toast(id: int, message: string, kind: string)

  const DEFAULT_TOAST_KIND: string := "success"

  /** A message to show and its kind, as a page hands it to `addToast`. */
  datatype Notice = Notice(message: string, kind: string)

  /** The toasts whose id differs from `id`, in their order. */
  function WithoutId(ts: seq<Toast>, id: int): (r: seq<Toast>)
    ensures forall t :: t in r <==> t in ts && t.id != id
    ensures IsSubsequence(r, ts)
  {
    FilterKeepsOrder(ts, (t: Toast) => t.id != id);
    Filter(ts, (t: Toast) => t.id != id)
  }

  /** Removing an id no toast carries changes nothing. */
  lemma WithoutAbsentId(ts: seq<Toast>, id: int)
    requires forall t :: t in ts ==> t.id != id
    ensures WithoutId(ts, id) == ts
  {
    FilterKeepsAll(ts, (t: Toast) => t.id != id);
  }

  /** A second removal of the same id is a no-op: the timer that fires after
      a manual dismissal changes nothing. */
  lemma WithoutIdIdempotent(ts: seq<Toast>, id: int)
    ensures WithoutId(WithoutId(ts, id), id) == WithoutId(ts, id)
  {
    WithoutAbsentId(WithoutId(ts, id), id);
  }

  /** Dismissals and expiries of different toasts can happen in either order. */
  lemma WithoutIdCommutes(ts: seq<Toast>, a: int, b: int)
    ensures WithoutId(WithoutId(ts, a), b) == WithoutId(WithoutId(ts, b), a)
  {
    FilterCommutes(ts, (t: Toast) => t.id != a, (t: Toast) => t.id != b);
  }

  /** Removing a toast just added leaves the earlier ones as the same removal
      would have left them; with no earlier toast of that id, exactly as
      they were. */
  lemma {:induction false} AddThenRemove(ts: seq<Toast>, t: Toast)
    ensures WithoutId(ts + [t], t.id) == WithoutId(ts, t.id)
    ensures (forall u :: u in ts ==> u.id != t.id) ==> WithoutId(ts + [t], t.id) == ts
  {
    if ts == [] {
      assert ts + [t] == [t];
    } else {
      assert (ts + [t])[1..] == ts[1..] + [t];
      AddThenRemove(ts[1..], t);
    }
    if forall u :: u in ts ==> u.id != t.id {
      WithoutAbsentId(ts, t.id);
    }
  }

  class AppState {
    var toasts: seq<Toast>
    var isSidebarOpen: bool
    /** The ids whose removal timer has not fired yet, oldest first. */
    var timers: seq<int>

    constructor ()
      ensures toasts == [] && !isSidebarOpen && timers == []
    {
      toasts := [];
      isSidebarOpen := false;
      timers := [];
    }

    method ToggleSidebar()
      modifies this
      ensures isSidebarOpen == !old(isSidebarOpen)
      ensures toasts == old(toasts) && timers == old(timers)
    {
      isSidebarOpen := !isSidebarOpen;
    }

    method CloseSidebar()
      modifies this
      ensures !isSidebarOpen
      ensures toasts == old(toasts) && timers == old(timers)
    {
      isSidebarOpen := false;
    }

    /** `addToast`: one toast appended with the clock reading as its id, the
      kind defaulting to success, and its removal scheduled. */
    method AddToast(message: string, kind: Option<string>, now: int)
      modifies this
      ensures toasts == old(toasts) + [Toast(now, message, if kind.Some? then kind.value else DEFAULT_TOAST_KIND)]
      ensures timers == old(timers) + [now]
      ensures isSidebarOpen == old(isSidebarOpen)
    {
      var kindOrDefault := if kind.Some? then kind.value else DEFAULT_TOAST_KIND;
      toasts := toasts + [Toast(now, message, kindOrDefault)];
      timers := timers + [now];
    }

    /** `removeToast`: every toast with that id goes, the rest keep their order. */
    method RemoveToast(id: int)
      modifies this
      ensures toasts == WithoutId(old(toasts), id)
      ensures timers == old(timers) && isSidebarOpen == old(isSidebarOpen)
    {
      toasts := WithoutId(toasts, id);
    }

    /** The `k`-th pending timer fires: the same filter as a dismissal. */
    method TimerFires(k: nat)
      requires k < |timers|
      modifies this
      ensures toasts == WithoutId(old(toasts), old(timers)[k])
      ensures timers == old(timers)[..k] + old(timers)[k + 1..]
      ensures isSidebarOpen == old(isSidebarOpen)
    {
      toasts := WithoutId(toasts, timers[k]);
      timers := timers[..k] + timers[k + 1..];
    }
  }
}
