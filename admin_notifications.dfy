/** The admin notification store of
    `client/src/contexts/AdminNotificationContext.jsx`: the same state and
    operations as the customer store, over the admin endpoints, without the
    login and logout listeners. The source keeps two separate contexts, so
    this class repeats `Notifications.NotificationState` member for member. */
module AdminNotifications {
  import opened Js
  import opened Notifications

  class AdminNotificationState {
    var notifications: seq<Notification>
    var unreadCount: int
    var loading: bool
    var error: Option<string>

    constructor ()
      ensures notifications == [] && unreadCount == 0 && !loading && error == None
    {
      notifications, unreadCount, loading, error := [], 0, false, None;
    }

    /** The reset on a signed-out admin. */
    method Reset()
      modifies this
      ensures notifications == [] && unreadCount == 0
      ensures loading == old(loading) && error == old(error)
    {
      notifications, unreadCount := [], 0;
    }

    /** `fetchNotifications(showLoading)`: a successful answer replaces the list
        and the count wholesale; an unsuccessful one changes neither; a call that
        throws records the error. The loading flag is back to where it was unless
        it was shown, in which case it ends cleared. */
    method FetchNotifications(showLoading: bool, response: Option<Response>)
      modifies this
      ensures response.Some? && response.value.success ==>
        notifications == response.value.notifications && unreadCount == response.value.unreadCount
      ensures !(response.Some? && response.value.success) ==>
        notifications == old(notifications) && unreadCount == old(unreadCount)
      ensures error == if response.None? then Some("Failed to load notifications") else None
      ensures loading == if showLoading then false else old(loading)
    {
      if showLoading {
        loading := true;
      }
      error := None;
      if response.None? {
        error := Some("Failed to load notifications");
      } else if response.value.success {
        notifications := response.value.notifications;
        unreadCount := response.value.unreadCount;
      }
      if showLoading {
        loading := false;
      }
    }

    /** The effect on `isAuthenticated`: fetch when signed in, reset otherwise. */
    method AuthenticationChanged(isAuthenticated: bool, response: Option<Response>)
      modifies this
      ensures !isAuthenticated ==> notifications == [] && unreadCount == 0
      ensures !isAuthenticated ==> loading == old(loading) && error == old(error)
      ensures isAuthenticated && response.Some? && response.value.success ==>
        notifications == response.value.notifications && unreadCount == response.value.unreadCount
      ensures isAuthenticated && !(response.Some? && response.value.success) ==>
        notifications == old(notifications) && unreadCount == old(unreadCount)
      ensures isAuthenticated ==> !loading
      ensures isAuthenticated ==> error == if response.None? then Some("Failed to load notifications") else None
    {
      if isAuthenticated {
        FetchNotifications(true, response);
      } else {
        Reset();
      }
    }

    /** `markAsRead(id)`: on success the notifications with that id become read
        and the count is the server's; otherwise nothing changes. The answer is
        handed back to the caller. */
    method MarkAsRead(id: string, response: Option<Response>) returns (answer: Option<Response>)
      modifies this
      ensures answer == response
      ensures response.Some? && response.value.success ==>
        notifications == MarkOne(old(notifications), id) && unreadCount == response.value.unreadCount
      ensures !(response.Some? && response.value.success) ==>
        notifications == old(notifications) && unreadCount == old(unreadCount)
      ensures loading == old(loading) && error == old(error)
    {
      if response.Some? && response.value.success {
        notifications := MarkOne(notifications, id);
        unreadCount := response.value.unreadCount;
      }
      answer := response;
    }

    /** `markAllAsRead()`: on success every notification is read and the count
        is 0; otherwise nothing changes. */
    method MarkAllAsRead(response: Option<Response>) returns (answer: Option<Response>)
      modifies this
      ensures answer == response
      ensures response.Some? && response.value.success ==>
        notifications == MarkAll(old(notifications)) && unreadCount == 0
      ensures !(response.Some? && response.value.success) ==>
        notifications == old(notifications) && unreadCount == old(unreadCount)
      ensures loading == old(loading) && error == old(error)
    {
      if response.Some? && response.value.success {
        notifications := MarkAll(notifications);
        unreadCount := 0;
      }
      answer := response;
    }
  }
}
