/**
  The browser's `XMLHttpRequest`, seen only through the calls a request
  makes on it. Every call on any transport is recorded, in order, in the
  log of the network the transport belongs to; what the browser then does
  on the wire is not modelled.
*/
module Transport {

  /** A request body: absent, a string, or an opaque `FormData` object. */
  datatype Body = NoBody | Str(s: string) | Form(handle: nat)

  /** One call issued on a transport. */
  datatype Action =
    | Open(httpMethod: string, url: string)
    | SetHeader(name: string, value: string)
    | Send(body: Body)

  /** The browser side: the calls issued on its transports so far, oldest first. */
  class Network {
    var log: seq<Action>

    constructor ()
      ensures log == []
    {
      log := [];
    }
  }

  /** A transport object; its calls go to the log of `net`. */
  class Xhr {
    const net: Network

    /** `new XMLHttpRequest()`: creating a transport issues no call. */
    constructor (net: Network)
      ensures this.net == net
    {
      this.net := net;
    }

    /** `xhr.open(method, url)`. */
    method Open(httpMethod: string, url: string)
      modifies net
      ensures net.log == old(net.log) + [Action.Open(httpMethod, url)]
    {
      net.log := net.log + [Action.Open(httpMethod, url)];
    }

    /** `xhr.setRequestHeader(name, value)`. */
    method SetRequestHeader(name: string, value: string)
      modifies net
      ensures net.log == old(net.log) + [SetHeader(name, value)]
    {
      net.log := net.log + [SetHeader(name, value)];
    }

    /** `xhr.send(body)`. */
    method Send(body: Body)
      modifies net
      ensures net.log == old(net.log) + [Action.Send(body)]
    {
      net.log := net.log + [Action.Send(body)];
    }
  }
}
