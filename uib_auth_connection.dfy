/** The authentication connector: it forwards a user's credential document
    to the UserIdentityBackend under the service's token id and classifies
    the backend's HTTP status into the user document, a bad-request failure
    or an authentication failure. The HTTP round trip itself is a parameter:
    a function from the request sent to the response received. */
module UibAuth {
  import opened JavaLang

  const StatusOk: int := 200
  const StatusBadRequest: int := 400
  const XmlMediaType: string := "application/xml"

  /** What logonUser hands to the HTTP client: the fixed backend target, the
      path segments appended to it in order, the entity and its media types. */
  datatype Request = Request(target: string, pathSegments: seq<string>, accept: string,
                             entity: Option<string>, contentType: string)

  /** What logonUser reads back: the status code, the entity as text, and
      the response's own toString (whose wording belongs to the HTTP client). */
  datatype Response = Response(status: int, body: string, description: string)

  /** The three ways logonUser ends: returning the user document, or throwing
      BadRequestException or AuthenticationFailedException with a message. */
  datatype LogonOutcome =
    | UserXml(xml: string)
    | BadRequest(message: string)
    | AuthenticationFailed(message: string)

  const BadRequestPrefix: string := "BadRequest for Json "
  const StatusCodeInfix: string := ",  Status code "
  const AuthenticationFailedPrefix: string := "Authentication failed. Status code "

  /** The switch on the status code. */
  function Classify(response: Response): (outcome: LogonOutcome)
    ensures outcome.UserXml? <==> response.status == StatusOk
    ensures outcome.UserXml? ==> outcome.xml == response.body
    ensures outcome.BadRequest? <==> response.status == StatusBadRequest
    ensures outcome.AuthenticationFailed? <==> response.status != StatusOk && response.status != StatusBadRequest
  {
    if response.status == StatusOk then
      UserXml(response.body)
    else if response.status == StatusBadRequest then
      BadRequest(BadRequestPrefix + response.description + StatusCodeInfix + IntToString(response.status))
    else
      AuthenticationFailed(AuthenticationFailedPrefix + IntToString(response.status))
  }

  /** A failure message ends with the status code, and the code can be read
      back from it: distinct codes give distinct messages. */
  lemma {:induction false} FailureMessageCarriesStatus(response: Response)
    requires response.status != StatusOk
    ensures Classify(response).AuthenticationFailed? ==>
      var m := Classify(response).message;
      AuthenticationFailedPrefix <= m && ParseInt(m[|AuthenticationFailedPrefix|..]) == Some(response.status)
    ensures Classify(response).BadRequest? ==>
      var m := Classify(response).message;
      BadRequestPrefix <= m && |m| >= 3 && m[|m| - 3..] == "400"
  {
    var code := IntToString(response.status);
    IntToStringRoundTrip(response.status);
    if response.status == StatusBadRequest {
      var m := Classify(response).message;
      var head := BadRequestPrefix + response.description + StatusCodeInfix;
      assert code == "400";
      assert m == head + code;
      assert m[|m| - 3..] == code;
      assert BadRequestPrefix <= m by {
        assert m == BadRequestPrefix + (response.description + StatusCodeInfix + code);
      }
    } else {
      var m := Classify(response).message;
      assert m == AuthenticationFailedPrefix + code;
      assert m[|AuthenticationFailedPrefix|..] == code;
    }
  }

  lemma AuthenticationFailedMessagesDistinguishStatus(r1: Response, r2: Response)
    requires Classify(r1).AuthenticationFailed? && Classify(r2).AuthenticationFailed?
    requires r1.status != r2.status
    ensures Classify(r1).message != Classify(r2).message
  {
    FailureMessageCarriesStatus(r1);
    FailureMessageCarriesStatus(r2);
  }

  class UibAuthConnection {
    /** The backend target, built from the configured URL once and final. */
    const uib: string

    constructor (uibUrl: string)
      ensures uib == uibUrl
    {
      uib := uibUrl;
    }

    /** The request logonUser sends: the path "/" + token, then
        "authenticate/user", with the credential document as its XML entity. */
    function LogonRequest(userAdminServiceTokenId: Option<string>, userCredentialsXml: Option<string>): (r: Request)
      ensures r.target == uib
      ensures r.pathSegments == ["/" + Render(userAdminServiceTokenId), "authenticate/user"]
      ensures r.entity == userCredentialsXml
      ensures r.accept == XmlMediaType && r.contentType == XmlMediaType
    {
      Request(uib, ["/" + Render(userAdminServiceTokenId)] + ["authenticate/user"], XmlMediaType,
              userCredentialsXml, XmlMediaType)
    }

    /** logonUser, with the backend's answer to the request supplied by
        `backend`. */
    function LogonUser(userAdminServiceTokenId: Option<string>, userCredentialsXml: Option<string>,
                       backend: Request -> Response): (outcome: LogonOutcome)
      ensures var response := backend(LogonRequest(userAdminServiceTokenId, userCredentialsXml));
        && (outcome.UserXml? <==> response.status == StatusOk)
        && (outcome.UserXml? ==> outcome.xml == response.body)
        && (outcome.BadRequest? <==> response.status == StatusBadRequest)
        && (outcome.AuthenticationFailed? <==> response.status != StatusOk && response.status != StatusBadRequest)
    {
      var request := LogonRequest(userAdminServiceTokenId, userCredentialsXml);
      var response := backend(request);
      Classify(response)
    }
  }

  /** Distinct calls send distinct requests: the request determines the
      rendered token id and the credential document it was built from. */
  lemma LogonRequestInjective(c: UibAuthConnection, t1: Option<string>, x1: Option<string>,
                              t2: Option<string>, x2: Option<string>)
    requires c.LogonRequest(t1, x1) == c.LogonRequest(t2, x2)
    ensures Render(t1) == Render(t2) && x1 == x2
  {
    var p1, p2 := "/" + Render(t1), "/" + Render(t2);
    assert p1 == c.LogonRequest(t1, x1).pathSegments[0] == p2;
    assert p1[1..] == Render(t1);
    assert p2[1..] == Render(t2);
  }

  /** A call's outcome depends only on the answer to its own request: two
      backends that answer that request alike give the same outcome, and two
      connections built for the same URL behave alike. */
  lemma LogonUserDependsOnlyOnOwnResponse(c1: UibAuthConnection, c2: UibAuthConnection,
                                          token: Option<string>, credentials: Option<string>,
                                          b1: Request -> Response, b2: Request -> Response)
    requires c1.uib == c2.uib
    requires b1(c1.LogonRequest(token, credentials)) == b2(c2.LogonRequest(token, credentials))
    ensures c1.LogonUser(token, credentials, b1) == c2.LogonUser(token, credentials, b2)
  {}
}
