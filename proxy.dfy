/**
 * The resolver wired to the DoH client, as the process entry point does:
 * the TXID seen by the downstream peer does not depend on the ID used
 * towards the upstream (which is 0) nor on the ID the upstream answers with.
 */
module Proxy {
  import opened Proto
  import Https
  import Resolver

  lemma DohTxidTransparency(client: Https.HttpsClient, request: Resolver.Request,
                            exchange: Https.HttpRequest -> Https.HttpResponse)
    requires |request.data| >= 2
    ensures var sent := Https.PostRequest(client, Https.QueryBody(request.data));
      var answer := exchange(sent);
      var o := Resolver.Reply(request, Https.ResponseFor(TxidFromBinaryMessage(request.data), answer));
      && TxidFromBinaryMessage(sent.body) == 0
      && sent.body[2..] == request.data[2..]
      && (o.SendTo? <==> answer.Response? && Https.IsSuccess(answer.status)
                         && answer.body.Some? && |answer.body.value| >= 2)
      && (o.SendTo? ==>
            && o.peer == request.peer
            && TxidFromBinaryMessage(o.data) == TxidFromBinaryMessage(request.data)
            && o.data[2..] == answer.body.value[2..])
  {
  }
}
