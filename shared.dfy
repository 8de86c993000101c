/**
 * The objects the engine's workers share: a `threading.Event`, a
 * `queue.Queue` of strings, and the HTTP side of `requests` as the list of
 * requests made so far together with the reply that request number k gets.
 */
module Shared {
  import opened LogReplay

  /** `threading.Event`: a flag that, once set, stays set. */
  class Event {
    var isSet: bool

    constructor ()
      ensures !isSet
    {
      isSet := false;
    }

    method Set()
      modifies this
      ensures isSet
    {
      isSet := true;
    }
  }

  /** `queue.Queue` of messages, oldest first. */
  class MessageQueue {
    var items: seq<string>

    constructor ()
      ensures items == []
    {
      items := [];
    }

    method Put(m: string)
      modifies this
      ensures items == old(items) + [m]
    {
      items := items + [m];
    }

    /** `get()` on a queue the caller has just seen non-empty. */
    method Get() returns (m: string)
      requires items != []
      modifies this
      ensures old(items) == [m] + items
    {
      m := items[0];
      items := items[1..];
    }
  }

  /** One HTTP request, with the basic-auth credentials it carries. */
  datatype Request =
    | Post(url: string, body: string, user: string, password: string)
    | Delete(url: string, user: string, password: string)

  /** The Elasticsearch node as the tools see it: request number k gets reply(k). */
  class Network {
    var requests: seq<Request>
    const reply: nat -> Reply

    constructor (reply: nat -> Reply)
      ensures requests == [] && this.reply == reply
    {
      requests := [];
      this.reply := reply;
    }

    method Send(r: Request) returns (answer: Reply)
      modifies this
      ensures requests == old(requests) + [r]
      ensures answer == reply(|old(requests)|)
    {
      answer := reply(|requests|);
      requests := requests + [r];
    }
  }
}
