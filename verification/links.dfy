/** The link record exchanged by the send route and pushed to devices. */
module Links {

  /** Mirrors `models.Link`; `id` and `createdAt` are whatever the request body
      carried, since the handler never assigns them. */
  datatype Link = Link(
    id: int,
    userId: int,
    fromDeviceId: int,
    toDeviceId: int,
    url: string,
    createdAt: string
  )
}
