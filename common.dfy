/** Values shared by every handler: optional request fields, handler replies,
    the records kept in the store and the store's key formats. */
module Common {

  datatype Option<+T> = None | Some(value: T)

  /** What a handler sends back: a JSON body, or an HTTP status with an error message. */
  datatype Reply<+T> = Ok(body: T) | Err(status: nat, error: string)

  /** JavaScript truthiness of an optional string field: a missing field and "" are falsy. */
  predicate Truthy(field: Option<string>)
  {
    field.Some? && field.value != ""
  }

  /** A linked account, as stored in the `users` hash under its own id. */
  datatype User = User(id: string, name: string, image: Option<string>, refreshToken: string, connectedAt: string)

  /** One entry of a comment log. */
  datatype Comment = Comment(userId: string, userName: string, text: string, timestamp: string)

  /** Member of the `hidden` set marking one (track, liker) feed entry as hidden. */
  function HiddenMember(trackId: string, likerId: string): string
  {
    trackId + ":" + likerId
  }

  /** Key of the comment list of one (track, liker) feed entry. */
  function CommentsKey(trackId: string, likerId: string): string
  {
    "comments:" + trackId + ":" + likerId
  }
}
