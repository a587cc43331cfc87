/**
  The `RemoteRequest` class: construction normalises and validates the
  HTTP method; `send` checks the body against the method and then drives a
  fresh transport through `open`, an optional `Content-Type` header and
  `send`.
*/
module Remote {
  import opened Ascii
  import opened Wrappers
  import opened Transport

  /** The methods a request accepts, in upper case. */
  const SupportedMethods: seq<string> := ["GET", "POST", "PUT", "PATCH", "DELETE"]

  /** The method used when the constructor is given none. */
  const DefaultMethod: string := "GET"

  const UnsupportedMethodMessage: string :=
    "`method` unsupported. Supported methods: GET|POST|PUT|PATCH|DELETE (case insensitively)."

  const IncompatibleBodyMessage: string :=
    "`body` can only be an application/x-www-form-urlencoded string with a GET request."

  const ContentType: string := "Content-Type"
  const FormUrlEncoded: string := "application/x-www-form-urlencoded"

  predicate IsSupported(m: string) {
    m in SupportedMethods
  }

  /** JavaScript truthiness of a body: no body and the empty string are falsy. */
  predicate Truthy(body: Body)
    ensures Truthy(body) <==> body.Form? || (body.Str? && |body.s| > 0)
  {
    match body
    case NoBody => false
    case Str(s) => s != ""
    case Form(_) => true
  }

  /**
    What the constructor does with its method argument: the method it
    stores, or the error it throws.
  */
  function NormalizeMethod(m: Option<string>): (r: Result<string, string>)
    ensures r.Success? ==> r.value in SupportedMethods
    ensures r.Failure? ==> r.error == UnsupportedMethodMessage
  {
    var upper := ToUpper(m.GetOr(DefaultMethod));
    if IsSupported(upper) then Success(upper) else Failure(UnsupportedMethodMessage)
  }

  /** The trace opens the transport with `m` and `u` first, and never again. */
  predicate OpensOnceFirst(t: seq<Action>, m: string, u: string) {
    |t| > 0 && t[0] == Action.Open(m, u) && forall i :: 0 < i < |t| ==> !t[i].Open?
  }

  /** The trace sends `body` last, and sends nothing before. */
  predicate SendsOnceLast(t: seq<Action>, body: Body) {
    |t| > 0 && t[|t| - 1] == Action.Send(body) && forall i :: 0 <= i < |t| - 1 ==> !t[i].Send?
  }

  /** Some action of the trace sets the header `name`. */
  predicate HasHeader(t: seq<Action>, name: string) {
    exists i :: 0 <= i < |t| && t[i].SetHeader? && t[i].name == name
  }

  /** Every header the trace sets is `Content-Type: application/x-www-form-urlencoded`. */
  predicate OnlyFormContentType(t: seq<Action>) {
    forall i :: 0 <= i < |t| && t[i].SetHeader? ==> t[i] == SetHeader(ContentType, FormUrlEncoded)
  }

  /**
    What a call of `send` did: the message of the error it threw, if any,
    and the calls it issued on the transport, in order.
  */
  datatype SendOutcome = SendOutcome(thrown: Option<string>, trace: seq<Action>)

  /**
    What `send(body)` does on a request holding `httpMethod` and `url`: the
    error it throws and the calls it issues on the transport it creates.
  */
  function Submit(httpMethod: string, url: string, body: Body): (r: SendOutcome)
    ensures r.thrown.Some? <==> httpMethod == "GET" && body.Form?
    ensures r.thrown.Some? ==> r.thrown.value == IncompatibleBodyMessage && r.trace == []
    ensures r.thrown.None? ==> |r.trace| <= 3
    ensures r.thrown.None? ==> OpensOnceFirst(r.trace, httpMethod, url)
    ensures r.thrown.None? ==> SendsOnceLast(r.trace, body)
    ensures r.thrown.None? ==> OnlyFormContentType(r.trace)
    ensures r.thrown.None? ==> (HasHeader(r.trace, ContentType) <==> Truthy(body) && httpMethod != "GET")
  {
    if httpMethod == "GET" && body.Form? then
      SendOutcome(Some(IncompatibleBodyMessage), [])
    else
      var header := if Truthy(body) && httpMethod != "GET" then [SetHeader(ContentType, FormUrlEncoded)] else [];
      var t := [Action.Open(httpMethod, url)] + header + [Action.Send(body)];
      assert HasHeader(t, ContentType) ==> header != [];
      assert header != [] ==> t[1] == SetHeader(ContentType, FormUrlEncoded);
      SendOutcome(None, t)
  }

  /** A request: its method and URL, fixed once it is constructed. */
  class RemoteRequest {
    var httpMethod: string
    var url: string

    /**
      The invariant of every request the constructor hands out: its method
      is one of the five supported ones, in upper case.
    */
    ghost predicate Valid()
      reads this
    {
      httpMethod in SupportedMethods
    }

    /**
      The field assignments of the constructor: the method upper-cased
      (`GET` when absent) and the URL as given. The object is valid exactly
      when the constructor goes on to return it rather than throw; the check
      and the throw are `Create`'s, which hands out valid objects only.
    */
    constructor (url: string, httpMethod: Option<string>)
      ensures this.httpMethod == ToUpper(httpMethod.GetOr(DefaultMethod))
      ensures this.url == url
      ensures Valid() <==> NormalizeMethod(httpMethod).Success?
    {
      this.httpMethod := ToUpper(httpMethod.GetOr(DefaultMethod));
      this.url := url;
    }

    /** The stored method is not one of the five supported ones. */
    function IsMethodUnsupported(): (r: bool)
      reads this
      ensures r <==> !(httpMethod == "GET" || httpMethod == "POST" || httpMethod == "PUT"
                       || httpMethod == "PATCH" || httpMethod == "DELETE")
      ensures !r ==> IsUpper(httpMethod)
    {
      !IsSupported(httpMethod)
    }

    /** The stored method is `GET`. */
    function IsMethodGet(): (r: bool)
      reads this
      ensures r <==> httpMethod == "GET"
      ensures r ==> !IsMethodUnsupported()
    {
      httpMethod == "GET"
    }

    /**
      `new RemoteRequest(url, method)`: the constructed request, or the
      error the constructor throws, in which case no request is handed out.
    */
    static method Create(url: string, httpMethod: Option<string>) returns (r: Result<RemoteRequest, string>)
      ensures r.Failure? <==> NormalizeMethod(httpMethod).Failure?
      ensures r.Failure? ==> r.error == UnsupportedMethodMessage
      ensures r.Success? ==> fresh(r.value) && r.value.Valid()
      ensures r.Success? ==> r.value.httpMethod == NormalizeMethod(httpMethod).value && r.value.url == url
    {
      var request := new RemoteRequest(url, httpMethod);
      if request.IsMethodUnsupported() {
        r := Failure(UnsupportedMethodMessage);
      } else {
        r := Success(request);
      }
    }

    /**
      `send(body)`: throws before creating a transport when a `FormData`
      body meets `GET`; otherwise opens a fresh transport on `net`, sets the
      form content type when the body is truthy and the method is not
      `GET`, and sends the body. The request itself is not changed.
    */
    method Send(body: Body, net: Network) returns (thrown: Option<string>)
      requires Valid()
      modifies net
      ensures thrown == Submit(httpMethod, url, body).thrown
      ensures net.log == old(net.log) + Submit(httpMethod, url, body).trace
      ensures unchanged(this) && Valid()
    {
      if httpMethod == "GET" && body.Form? {
        return Some(IncompatibleBodyMessage);
      }
      var xhr := new Xhr(net);
      xhr.Open(httpMethod, url);
      ghost var header: seq<Action> := [];
      if Truthy(body) && !IsMethodGet() {
        xhr.SetRequestHeader(ContentType, FormUrlEncoded);
        header := [SetHeader(ContentType, FormUrlEncoded)];
      }
      assert net.log == old(net.log) + [Action.Open(httpMethod, url)] + header;
      xhr.Send(body);
      thrown := None;
    }
  }
}
