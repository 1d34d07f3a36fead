/** The customer notification store of
    `client/src/contexts/NotificationContext.jsx`, and the list updaters it
    shares with the admin store. The server calls are parameters: a `Response`
    is what the call resolved to, and `None` stands for a call that threw. */
module Notifications {
  import opened Js

  /** A notification; `rest` stands for the fields the store never touches. */
  datatype Notification = Notification(id: string, read: Value, rest: string)

  /** What the server answers: `success`, and for a fetch or a single mark the
      list and the unread count it reports. */
  datatype Response = Response(success: bool, notifications: seq<Notification>, unreadCount: int)

  /** `!n.read`. */
  predicate Unread(n: Notification)
  {
    !Truthy(n.read)
  }

  /** The `markAsRead` updater: `{ ...n, read: true }` for every notification with
      that `_id`. */
  function MarkOne(ns: seq<Notification>, id: string): (r: seq<Notification>)
  {
    seq(|ns|, i requires 0 <= i < |ns| => if ns[i].id == id then ns[i].(read := Bool(true)) else ns[i])
  }

  /** The `markAllAsRead` updater. */
  function MarkAll(ns: seq<Notification>): (r: seq<Notification>)
  {
    seq(|ns|, i requires 0 <= i < |ns| => ns[i].(read := Bool(true)))
  }

  /** Marking one keeps the length and order; the notifications with that id
      become read and keep their other fields, and every other notification is
      untouched. */
  lemma MarkOneSpec(ns: seq<Notification>, id: string)
    ensures |MarkOne(ns, id)| == |ns|
    ensures forall i :: 0 <= i < |ns| && ns[i].id == id ==>
      !Unread(MarkOne(ns, id)[i]) && MarkOne(ns, id)[i].id == id && MarkOne(ns, id)[i].rest == ns[i].rest
    ensures forall i :: 0 <= i < |ns| && ns[i].id != id ==> MarkOne(ns, id)[i] == ns[i]
  {
  }

  /** Marking all keeps the length, order and the other fields, and leaves no
      notification unread; marking one first makes no difference, and marking
      all again changes nothing. */
  lemma MarkAllSpec(ns: seq<Notification>, id: string)
    ensures |MarkAll(ns)| == |ns|
    ensures forall i :: 0 <= i < |ns| ==>
      !Unread(MarkAll(ns)[i]) && MarkAll(ns)[i].id == ns[i].id && MarkAll(ns)[i].rest == ns[i].rest
    ensures MarkAll(MarkOne(ns, id)) == MarkAll(ns)
    ensures MarkAll(MarkAll(ns)) == MarkAll(ns)
  {
  }

  /** Marking one is idempotent and never makes a read notification unread. */
  lemma MarkOneIdempotent(ns: seq<Notification>, id: string)
    ensures MarkOne(MarkOne(ns, id), id) == MarkOne(ns, id)
    ensures forall i :: 0 <= i < |ns| && !Unread(ns[i]) ==> !Unread(MarkOne(ns, id)[i])
  {
  }

  class NotificationState {
    var notifications: seq<Notification>
    var unreadCount: int
    var loading: bool
    var error: Option<string>

    constructor ()
      ensures notifications == [] && unreadCount == 0 && !loading && error == None
    {
      notifications, unreadCount, loading, error := [], 0, false, None;
    }

    /** The reset on a signed-out user and on the logout event. */
    method Reset()
      modifies this
      ensures notifications == [] && unreadCount == 0
      ensures loading == old(loading) && error == old(error)
    {
      notifications, unreadCount := [], 0;
    }

    /** `fetchNotifications(showLoading)`: a successful answer replaces the list
        and the count wholesale; an unsuccessful one changes neither; a call that
        throws records the error. The loading flag is back to where it was unless
        it was shown, in which case it ends cleared. */
    method FetchNotifications(showLoading: bool, response: Option<Response>)
      modifies this
      ensures response.Some? && response.value.success ==>
        notifications == response.value.notifications && unreadCount == response.value.unreadCount
      ensures !(response.Some? && response.value.success) ==>
        notifications == old(notifications) && unreadCount == old(unreadCount)
      ensures error == if response.None? then Some("Failed to load notifications") else None
      ensures loading == if showLoading then false else old(loading)
    {
      if showLoading {
        loading := true;
      }
      error := None;
      if response.None? {
        error := Some("Failed to load notifications");
      } else if response.value.success {
        notifications := response.value.notifications;
        unreadCount := response.value.unreadCount;
      }
      if showLoading {
        loading := false;
      }
    }

    /** The effect on `isAuthenticated`: fetch when signed in, reset otherwise. */
    method AuthenticationChanged(isAuthenticated: bool, response: Option<Response>)
      modifies this
      ensures !isAuthenticated ==> notifications == [] && unreadCount == 0
      ensures !isAuthenticated ==> loading == old(loading) && error == old(error)
      ensures isAuthenticated && response.Some? && response.value.success ==>
        notifications == response.value.notifications && unreadCount == response.value.unreadCount
      ensures isAuthenticated && !(response.Some? && response.value.success) ==>
        notifications == old(notifications) && unreadCount == old(unreadCount)
      ensures isAuthenticated ==> !loading
      ensures isAuthenticated ==> error == if response.None? then Some("Failed to load notifications") else None
    {
      if isAuthenticated {
        FetchNotifications(true, response);
      } else {
        Reset();
      }
    }

    /** `markAsRead(id)`: on success the notifications with that id become read
        and the count is the server's; otherwise nothing changes. The answer is
        handed back to the caller. */
    method MarkAsRead(id: string, response: Option<Response>) returns (answer: Option<Response>)
      modifies this
      ensures answer == response
      ensures response.Some? && response.value.success ==>
        notifications == MarkOne(old(notifications), id) && unreadCount == response.value.unreadCount
      ensures !(response.Some? && response.value.success) ==>
        notifications == old(notifications) && unreadCount == old(unreadCount)
      ensures loading == old(loading) && error == old(error)
    {
      if response.Some? && response.value.success {
        notifications := MarkOne(notifications, id);
        unreadCount := response.value.unreadCount;
      }
      answer := response;
    }

    /** `markAllAsRead()`: on success every notification is read and the count
        is 0; otherwise nothing changes. */
    method MarkAllAsRead(response: Option<Response>) returns (answer: Option<Response>)
      modifies this
      ensures answer == response
      ensures response.Some? && response.value.success ==>
        notifications == MarkAll(old(notifications)) && unreadCount == 0
      ensures !(response.Some? && response.value.success) ==>
        notifications == old(notifications) && unreadCount == old(unreadCount)
      ensures loading == old(loading) && error == old(error)
    {
      if response.Some? && response.value.success {
        notifications := MarkAll(notifications);
        unreadCount := 0;
      }
      answer := response;
    }
  }
}
