/**
  Properties of a request as a whole: which method spellings construction
  accepts, what it stores, and what `send` then does with each kind of body.
*/
module RemoteProperties {
  import opened Ascii
  import opened Wrappers
  import opened Transport
  import opened Remote

  /** Each supported method is written in upper case. */
  lemma SupportedMethodsAreUpper(k: nat)
    requires k < |SupportedMethods|
    ensures IsUpper(SupportedMethods[k])
  {
    var m := SupportedMethods[k];
    forall i | 0 <= i < |m| ensures !IsLower(m[i]) {
      if k == 0 { assert m == "GET"; }
      else if k == 1 { assert m == "POST"; }
      else if k == 2 { assert m == "PUT"; }
      else if k == 3 { assert m == "PATCH"; }
      else { assert m == "DELETE"; }
    }
  }

  /** Without a method argument the request is a `GET` request. */
  lemma DefaultMethodIsGet()
    ensures NormalizeMethod(None) == Success("GET")
  {
    SupportedMethodsAreUpper(0);
    ToUpperFixesUpper("GET");
  }

  /**
    Construction succeeds exactly when the method is one of the five
    supported ones up to ASCII case, and then stores that method, in
    upper case, which upper-casing leaves alone.
  */
  lemma AcceptedIffSupportedIgnoringCase(m: string)
    ensures NormalizeMethod(Some(m)).Success?
        <==> exists k :: 0 <= k < |SupportedMethods| && EqualIgnoringCase(m, SupportedMethods[k])
    ensures NormalizeMethod(Some(m)).Success? ==>
              EqualIgnoringCase(m, NormalizeMethod(Some(m)).value)
              && ToUpper(NormalizeMethod(Some(m)).value) == NormalizeMethod(Some(m)).value
  {
    forall k | 0 <= k < |SupportedMethods|
      ensures ToUpper(m) == SupportedMethods[k] <==> EqualIgnoringCase(m, SupportedMethods[k])
    {
      SupportedMethodsAreUpper(k);
      ToUpperIsIff(m, SupportedMethods[k]);
    }
    ToUpperIdempotent(m);
  }

  /** Spellings that differ only in case construct the same request, or fail alike. */
  lemma CaseVariantsAgree(a: string, b: string)
    requires EqualIgnoringCase(a, b)
    ensures NormalizeMethod(Some(a)) == NormalizeMethod(Some(b))
  {
    ToUpperAgrees(a, b);
  }

  /** Every spelling of a supported method, in any case, constructs that method. */
  lemma SpellingAccepted(m: string, k: nat)
    requires k < |SupportedMethods| && EqualIgnoringCase(m, SupportedMethods[k])
    ensures NormalizeMethod(Some(m)) == Success(SupportedMethods[k])
  {
    SupportedMethodsAreUpper(k);
    ToUpperIsIff(m, SupportedMethods[k]);
  }

  /** The lower-case spellings the constructor tests use, one per supported method. */
  const LowerSpellings: seq<string> := ["get", "post", "put", "patch", "delete"]

  /** The lower- and upper-case spelling of each supported method store that method. */
  lemma TestedSpellings(k: nat)
    requires k < |SupportedMethods|
    ensures NormalizeMethod(Some(LowerSpellings[k])) == Success(SupportedMethods[k])
    ensures NormalizeMethod(Some(SupportedMethods[k])) == Success(SupportedMethods[k])
  {
    var lower, upper := LowerSpellings[k], SupportedMethods[k];
    if k == 0 {
      assert lower == "get" && upper == "GET";
    } else if k == 1 {
      assert lower == "post" && upper == "POST";
    } else if k == 2 {
      assert lower == "put" && upper == "PUT";
    } else if k == 3 {
      assert lower == "patch" && upper == "PATCH";
    } else {
      assert lower == "delete" && upper == "DELETE";
    }
    assert EqualIgnoringCase(lower, upper);
    SpellingAccepted(lower, k);
    SpellingAccepted(upper, k);
  }

  /** The spelling the constructor tests reject. */
  lemma TestedRejection()
    ensures NormalizeMethod(Some("UNSUPPORTED")) == Failure(UnsupportedMethodMessage)
  {
    AcceptedIffSupportedIgnoringCase("UNSUPPORTED");
  }

  /** The method stored for spelling `m` is `GET` exactly when `m` is `get` up to case. */
  lemma StoredGetIff(m: string)
    requires NormalizeMethod(Some(m)).Success?
    ensures NormalizeMethod(Some(m)).value == "GET" <==> EqualIgnoringCase(m, "GET")
  {
    SupportedMethodsAreUpper(0);
    ToUpperIsIff(m, "GET");
  }

  /**
    Sending a `FormData` body throws, before any transport call, exactly when
    the request was constructed with `get` in some case; with any other
    supported method it is sent.
  */
  lemma FormBodyRejectedOnlyForGet(m: string, url: string, handle: nat)
    requires NormalizeMethod(Some(m)).Success?
    ensures Submit(NormalizeMethod(Some(m)).value, url, Form(handle)) == SendOutcome(Some(IncompatibleBodyMessage), [])
        <==> EqualIgnoringCase(m, "GET")
  {
    StoredGetIff(m);
  }

  /**
    For a request constructed with spelling `m`, the form content type is set
    exactly when the body is truthy and `m` is not `get` up to case.
  */
  lemma ContentTypeIffTruthyAndNotGet(m: string, url: string, body: Body)
    requires NormalizeMethod(Some(m)).Success?
    ensures var r := Submit(NormalizeMethod(Some(m)).value, url, body);
      r.thrown.None? ==> (HasHeader(r.trace, ContentType) <==> Truthy(body) && !EqualIgnoringCase(m, "GET"))
  {
    StoredGetIff(m);
  }

  /** `new RemoteRequest("/get").send()` opens a `GET` to `/get` and sends no body. */
  lemma DefaultRequestTrace()
    ensures NormalizeMethod(None) == Success("GET")
    ensures Submit("GET", "/get", NoBody) == SendOutcome(None, [Action.Open("GET", "/get"), Action.Send(NoBody)])
  {
    DefaultMethodIsGet();
    var t: seq<Action> := [Action.Open("GET", "/get")];
    assert t + [] + [Action.Send(NoBody)] == [Action.Open("GET", "/get"), Action.Send(NoBody)];
  }

  /**
    A client of the class: a request built with `get` that is sent a
    `FormData` body throws, and no transport call reaches the network.
  */
  method FormBodyWithGetClient(url: string, handle: nat)
  {
    var net := new Network();
    assert LowerSpellings[0] == "get";
    TestedSpellings(0);
    var created := RemoteRequest.Create(url, Some("get"));
    var request := created.value;
    var thrown := request.Send(Form(handle), net);
    assert thrown == Some(IncompatibleBodyMessage) && net.log == [];
  }
}
