/** The sessions of a server to its peers: messages queued per peer, None for a peer that is gone. */
module Links {
  import opened Wrappers

  /** One copy of the message goes to every connected peer. */
  method Broadcast<N>(links: seq<Option<seq<N>>>, message: N) returns (sent: seq<Option<seq<N>>>)
    ensures |sent| == |links|
    ensures forall i :: 0 <= i < |links| ==>
      sent[i] == match links[i] case None => None case Some(queue) => Some(queue + [message])
  {
    sent := links;
    for i := 0 to |links|
      invariant |sent| == |links|
      invariant forall k :: i <= k < |links| ==> sent[k] == links[k]
      invariant forall k :: 0 <= k < i ==>
        sent[k] == match links[k] case None => None case Some(queue) => Some(queue + [message])
    {
      if sent[i].Some? {
        sent := sent[i := Some(sent[i].value + [message])];
      }
    }
  }
}
