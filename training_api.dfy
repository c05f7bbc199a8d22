/**
 * The REST client of the training service (training_service/utils/api_communicator.py):
 * endpoint URLs derived from one base URL, a bearer token set by
 * `authenticate`, the headers that token gates, and the result contract of
 * `make_request`.
 *
 * The HTTP exchange itself is an oracle: each request's outcome is a parameter.
 */
module TrainingApi {
  import opened Wrappers
  import opened Text

  /** `APIEndpoints`: one URL per resource the training service talks to. */
  datatype Endpoints = Endpoints(
    enrollment: string,
    member: string,
    trainingImage: string,
    faceModel: string,
    schedule: string,
    device: string,
    course: string,
    config: string)

  function Urls(e: Endpoints): seq<string> {
    [e.enrollment, e.member, e.trainingImage, e.faceModel, e.schedule, e.device, e.course, e.config]
  }

  /** A resource path below `root`; every resource path ends with `/`. */
  function Under(root: string, path: string): (u: string)
    requires |path| > 0 && path[|path| - 1] == '/'
    ensures StartsWith(u, root) && EndsWith(u, "/")
  {
    assert (root + path)[..|root|] == root;
    root + path
  }

  /**
   * `APIEndpoints.from_base_url(base_url)`: the base without its trailing
   * slashes, followed by `/api/` and each resource's fixed path.
   */
  function FromBaseUrl(baseUrl: string): (e: Endpoints)
    ensures forall u :: u in Urls(e) ==>
      StartsWith(u, RStrip(baseUrl, '/') + "/api/") && EndsWith(u, "/")
  {
    var root := RStrip(baseUrl, '/') + "/api/";
    Endpoints(
      Under(root, "Enrollment/"),
      Under(root, "members/"),
      Under(root, "TrainingImageViewSet/"),
      Under(root, "FaceModel/"),
      Under(root, "Schedule/"),
      Under(root, "device/"),
      Under(root, "courses/"),
      Under(root, "service-configs/by-service/Training/"))
  }

  /** Trailing slashes on the base URL make no difference to any endpoint. */
  lemma EndpointsIgnoreTrailingSlashes(baseUrl: string, k: nat)
    ensures FromBaseUrl(baseUrl + Repeat('/', k)) == FromBaseUrl(baseUrl)
  {
    RStripIgnoresTrailing(baseUrl, '/', k);
  }

  /** The text after `Bearer ` in an `Authorization` value, if it has that scheme. */
  function BearerCredential(value: string): Option<string> {
    if StartsWith(value, "Bearer ") then Some(value[7..]) else None
  }

  /** What a request can come back with. */
  datatype Transport<T> =
    | ConnectionFails            // no response object: refused, DNS, timeout
    | HttpError(status: int)     // a 4xx or 5xx status; `raise_for_status` raises
    | Delivered(json: Option<T>) // a 2xx status; `None` when the body is not JSON

  /** The reply to `POST /api/token/`: a JSON object, or a request failure. */
  datatype AuthReply =
    | AuthRequestFails
    | AuthReplied(body: map<string, string>)

  datatype ApiError =
    | NotAuthenticated           // the `ValueError` of `headers`
    | MissingAccessKey           // the `KeyError` of `response.json()["access"]`
    | UnboundResponse            // the `UnboundLocalError` of `make_request`'s handler

  class APIClient {
    const baseUrl: string
    var token: Option<string>
    const endpoints: Endpoints

    /** A token that `headers` accepts: present and not empty. */
    predicate Authenticated()
      reads this
    {
      token.Some? && token.value != ""
    }

    /** `APIClient(base_url)`: no token yet; the endpoints come from the stripped base. */
    constructor (baseUrl: string)
      ensures this.baseUrl == RStrip(baseUrl, '/')
      ensures token == None && !Authenticated()
      ensures endpoints == FromBaseUrl(baseUrl)
    {
      this.baseUrl := RStrip(baseUrl, '/');
      token := None;
      RStripIdempotent(baseUrl, '/');
      endpoints := FromBaseUrl(RStrip(baseUrl, '/'));
    }

    /**
     * `authenticate(username, password)`: the credentials travel in the
     * request, so only the server's reply is modelled. A request failure gives
     * `false` and keeps the token; a reply without `access` raises `KeyError`.
     */
    method Authenticate(reply: AuthReply) returns (r: Result<bool, ApiError>)
      modifies this`token
      ensures reply.AuthRequestFails? ==> r == Ok(false) && token == old(token)
      ensures reply.AuthReplied? && "access" !in reply.body ==>
        r == Err(MissingAccessKey) && token == old(token)
      ensures reply.AuthReplied? && "access" in reply.body ==>
        r == Ok(true) && token == Some(reply.body["access"])
    {
      match reply
      case AuthRequestFails =>
        return Ok(false);
      case AuthReplied(body) =>
        if "access" !in body {
          return Err(MissingAccessKey);
        }
        token := Some(body["access"]);
        return Ok(true);
    }

    /** The `headers` property: refuses without a usable token, otherwise carries it as a bearer credential. */
    function Headers(): (r: Result<map<string, string>, ApiError>)
      reads this
      ensures r.Err? <==> !Authenticated()
      ensures r.Err? ==> r.error == NotAuthenticated
      ensures r.Ok? ==>
        r.value.Keys == {"Authorization", "Content-Type"}
        && BearerCredential(r.value["Authorization"]) == Some(token.value)
        && r.value["Content-Type"] == "application/json"
    {
      if !Authenticated() then Err(NotAuthenticated)
      else
        var auth := "Bearer " + token.value;
        assert auth[7..] == token.value;
        Ok(map["Authorization" := auth, "Content-Type" := "application/json"])
    }

    /**
     * `make_request(url, ...)` as written. The headers are built inside the
     * `try`, but their `ValueError` is not a request error and escapes. A
     * request that never produced a response reaches a handler that reads the
     * unbound `response` and raises `UnboundLocalError`.
     */
    function MakeRequestAsWritten<T>(transport: Transport<T>): (r: Result<Option<T>, ApiError>)
      reads this
      ensures !Authenticated() ==> r == Err(NotAuthenticated)
      ensures Authenticated() && transport.ConnectionFails? ==> r == Err(UnboundResponse)
      ensures Authenticated() && !transport.ConnectionFails? ==> r == MakeRequest(transport)
    {
      if !Authenticated() then Err(NotAuthenticated)
      else match transport
        case ConnectionFails => Err(UnboundResponse)
        case HttpError(_) => Ok(None)
        case Delivered(json) => Ok(json)
    }

    /**
     * `make_request` as its handler intends: every request error, including
     * one that never got a response, is logged and gives `None`.
     */
    function MakeRequest<T>(transport: Transport<T>): (r: Result<Option<T>, ApiError>)
      reads this
      ensures r.Err? <==> !Authenticated()
      ensures r.Ok? ==> (r.value.Some? <==> transport.Delivered? && transport.json.Some?)
      ensures r.Ok? && r.value.Some? ==> r.value == transport.json
    {
      if !Authenticated() then Err(NotAuthenticated)
      else match transport
        case ConnectionFails => Ok(None)
        case HttpError(_) => Ok(None)
        case Delivered(json) => Ok(json)
    }
  }

  /** A failed connection makes the written `make_request` raise instead of returning `None`. */
  lemma ConnectionFailureEscapes(client: APIClient)
    requires client.Authenticated()
    ensures client.MakeRequestAsWritten<int>(ConnectionFails) == Err(UnboundResponse)
    ensures client.MakeRequest<int>(ConnectionFails) == Ok(None)
  {
  }
}
