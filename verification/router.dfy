/** The `POST /links` handler: bind the body, stamp the authenticated user on
    it, store it, and push it to the target device's live connection if the
    registry holds one. The push happens at most once and its failure is only
    logged. */
module Router {
  import opened Wrappers
  import opened Links
  import Registry

  const StatusOK: int := 200
  const StatusBadRequest: int := 400

  /** The JSON reply: an HTTP status and a one-field object. */
  datatype Response = Response(status: int, field: string, text: string)

  /** One `WriteJSON` of a link to a connection. */
  datatype Delivery<C> = Delivery(conn: C, link: Link)

  /** The columns the handler's INSERT supplies; the database assigns the
      row's own id and creation time, which never reach the pushed record. */
  datatype Row = Row(userId: int, fromDeviceId: int, toDeviceId: int, url: string)

  /** What one request does: its reply, the row it asked the database to
      insert (if it got that far) and the push it made (if any). */
  datatype Outcome<C> = Outcome(response: Response, insert: Option<Row>, write: Option<Delivery<C>>)

  /** The pushed record agrees with the inserted row on every column the
      handler supplies. */
  predicate AgreesWithRow(link: Link, row: Row)
  {
    && link.userId == row.userId
    && link.fromDeviceId == row.fromDeviceId
    && link.toDeviceId == row.toDeviceId
    && link.url == row.url
  }

  /** `body` is None when the request body does not bind to a link;
      `stored` is whether the database insert succeeded. */
  function SendLink<C>(t: Registry.Table<C>, authUser: int, body: Option<Link>, stored: bool): (r: Outcome<C>)
    ensures body.None? ==> r == Outcome(Response(StatusBadRequest, "error", "Invalid input"), None, None)
    ensures body.Some? ==> r.insert == Some(Row(authUser, body.value.fromDeviceId, body.value.toDeviceId, body.value.url))
    ensures body.Some? && !stored ==> r.response == Response(StatusBadRequest, "error", "Failed to store link")
    ensures r.response.status == StatusOK <==> body.Some? && stored
    ensures r.response.status == StatusOK ==> r.response == Response(StatusOK, "message", "Link sent")
    ensures r.write.Some? <==> body.Some? && stored && Registry.Lookup(t, authUser, body.value.toDeviceId).Some?
    ensures r.write.Some? ==> Registry.Lookup(t, authUser, body.value.toDeviceId) == Some(r.write.value.conn)
    ensures r.write.Some? ==> r.insert.Some? && AgreesWithRow(r.write.value.link, r.insert.value)
    ensures r.write.Some? ==> r.write.value.link == body.value.(userId := authUser)
  {
    match body
    case None => Outcome(Response(StatusBadRequest, "error", "Invalid input"), None, None)
    case Some(bound) =>
      var link := bound.(userId := authUser);
      var row := Row(link.userId, link.fromDeviceId, link.toDeviceId, link.url);
      if !stored then
        Outcome(Response(StatusBadRequest, "error", "Failed to store link"), Some(row), None)
      else
        var write :=
          match Registry.Lookup(t, link.userId, link.toDeviceId)
          case Some(conn) => Some(Delivery(conn, link))
          case None => None;
        Outcome(Response(StatusOK, "message", "Link sent"), Some(row), write)
  }

  /** The pushed record is the submitted one with only the user replaced: the
      device ids, URL, id and timestamp reach the device unchanged. */
  lemma DeliveredPayloadMatchesRequest<C>(t: Registry.Table<C>, authUser: int, link: Link, stored: bool)
    requires Registry.Lookup(t, authUser, link.toDeviceId).Some?
    requires stored
    ensures var w := SendLink(t, authUser, Some(link), stored).write;
            && w.Some?
            && w.value.link.userId == authUser
            && w.value.link.fromDeviceId == link.fromDeviceId
            && w.value.link.toDeviceId == link.toDeviceId
            && w.value.link.url == link.url
            && w.value.link.id == link.id
            && w.value.link.createdAt == link.createdAt
  {
  }

  /** Any `user_id` in the body is ignored: the outcome depends only on the
      authenticated user. */
  lemma BodyUserIgnored<C>(t: Registry.Table<C>, authUser: int, link: Link, claimed: int, stored: bool)
    ensures SendLink(t, authUser, Some(link.(userId := claimed)), stored) == SendLink(t, authUser, Some(link), stored)
  {
  }
}
