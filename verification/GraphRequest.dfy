/** One request of a Microsoft 365 cycle, and the one renewal of the access token
    the whole cycle may use. */
module GraphRequest {
  import opened Domain

  datatype Reply = Answered(body: string) | TokenRefused | OtherFailure

  class GraphService {
    /** What the service replies to the requests of the cycle, and what asking
        Online Accounts for the access would give. */
    const replies: nat -> Reply
    const renewed: Option<string>
    var token: string
    var renewal: bool
    var requests: nat
    /** The token of each request sent, and how often a renewal was asked for. */
    ghost var sent: seq<string>
    ghost var asked: nat

    /** The renewal is asked for once at most, and no request after it carries a
        token that was refused before. */
    ghost predicate Valid()
      reads this
    {
      && asked == (if renewal then 0 else 1) && requests == |sent|
      && (forall i :: 0 <= i < |sent| && sent[i] != token ==> !renewal && renewed == Some(token))
      && (forall i :: 0 <= i < |sent| && renewal ==> !replies(i).TokenRefused?)
      && (forall i, j :: 0 <= i < j < |sent| && sent[i] != sent[j] ==> sent[j] == token)
    }

    constructor (token: string, replies: nat -> Reply, renewed: Option<string>)
      ensures Valid() && renewal && sent == [] && this.token == token
      ensures this.replies == replies && this.renewed == renewed
    {
      this.token, this.replies, this.renewed := token, replies, renewed;
      renewal, requests, sent, asked := true, 0, [], 0;
    }

    /** Runs one request; a refused token is renewed once, and the request repeated
        once, only with a different token. */
    method Request() returns (reply: Reply)
      requires Valid()
      modifies this
      ensures Valid()
      ensures |sent| > |old(sent)| && reply == replies(|sent| - 1)
      ensures !renewal <==> !old(renewal) || replies(|old(sent)|).TokenRefused?
      ensures if old(renewal) && replies(|old(sent)|).TokenRefused? && renewed.Some? && renewed.value != old(token)
              then sent == old(sent) + [old(token), renewed.value] && token == renewed.value
              else sent == old(sent) + [old(token)] && token == old(token)
    {
      reply := Send();
      if !reply.TokenRefused? || !renewal {
        return;
      }
      renewal := false;
      asked := asked + 1;
      if renewed.Some? && renewed.value != token {
        token := renewed.value;
        reply := Send();
      }
    }

    method Send() returns (reply: Reply)
      requires requests == |sent|
      modifies this`sent, this`requests
      ensures sent == old(sent) + [token] && requests == |sent| && reply == replies(|old(sent)|)
    {
      reply := replies(requests);
      requests := requests + 1;
      sent := sent + [token];
    }
  }
}
