/** The chat notification both components send, and the None guard of post_message. */
module Slack {
  import opened Wrappers

  /** One message posted to one channel. */
  datatype Notification = Notification(channel: string, text: string)

  /**
   * post_message: a message posts exactly one notification to the channel;
   * None posts nothing. A failing post is swallowed by the client, so a post
   * is modelled as a notification that always goes out.
   */
  function PostMessage(channel: string, msg: Option<string>): (posted: seq<Notification>)
    ensures |posted| <= 1
    ensures posted == [] <==> msg.None?
    ensures forall k :: 0 <= k < |posted| ==> posted[k] == Notification(channel, msg.value)
  {
    match msg
    case None => []
    case Some(text) => [Notification(channel, text)]
  }
}
