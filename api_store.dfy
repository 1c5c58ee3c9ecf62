/** The API store: the request interceptor that attaches the session token, the
    verb/path/body of each request method, and how each method passes failures on. */
module ApiStore {
  import opened Js
  import opened Session

  datatype Verb = Get | Post | Put | Delete

  /** A JSON field value as the pages put it into a request body. */
  datatype Value = Str(s: string) | Bool(b: bool) | Number(n: JsNumber)

  /** The pet fields `addPet` and `updatePet` send, passed through unchanged. */
  datatype PetFields = PetFields(name: Value, gender: Value, age: Value, breed: Value, weight: Value, image: Value)

  datatype ReqBody =
    | NoBody
    | RegisterBody(firstName: string, lastName: string, email: string)
    | LoginBody(email: string, password: string)
    | PetBody(pet: PetFields)

  /** A request descriptor: the verb, the path below the base URL, and the body. */
  datatype Req = Req(verb: Verb, path: string, body: ReqBody)

  /** What the caller's `then`/`catch` sees of a request: a resolved response with
      its status, decoded data and whether that data is an array; a rejection that
      carries a response with a status; or a rejection without a response. */
  datatype Outcome<D> =
    | Resolved(status: int, data: D, isArray: bool)
    | RejectedWithResponse(status: int)
    | RejectedNoResponse

  predicate ResolvedWith<D>(o: Outcome<D>, code: int)
  {
    o.Resolved? && o.status == code
  }

  predicate RejectedWith<D>(o: Outcome<D>, code: int)
  {
    o.RejectedWithResponse? && o.status == code
  }

  function Register(firstName: string, lastName: string, email: string): (r: Req)
    ensures r.verb == Post && r.path == "/auth/register"
    ensures r.body == RegisterBody(firstName, lastName, email)
  {
    Req(Post, "/auth/register", RegisterBody(firstName, lastName, email))
  }

  function Login(email: string, password: string): (r: Req)
    ensures r.verb == Post && r.path == "/auth/login"
    ensures r.body == LoginBody(email, password)
  {
    Req(Post, "/auth/login", LoginBody(email, password))
  }

  function AddPet(pet: PetFields): (r: Req)
    ensures r.verb == Post && r.path == "/add" && r.body == PetBody(pet)
  {
    Req(Post, "/add", PetBody(pet))
  }

  /** `updatePet(id, pet)` posts (it does not put) to "/" followed by the id. */
  function UpdatePet(id: int, pet: PetFields): (r: Req)
    ensures r.verb == Post && r.body == PetBody(pet)
    ensures |r.path| >= 2 && r.path[0] == '/' && ParseInt(r.path[1..], 10) == Int(id)
  {
    var path := "/" + IntToString(id);
    assert path[1..] == IntToString(id) + [];
    ParseIntOfIntToString(id, []);
    Req(Post, path, PetBody(pet))
  }

  function GetAllPetsByUserId(): (r: Req)
    ensures r.verb == Get && r.path == "/pets/all" && r.body == NoBody
  {
    Req(Get, "/pets/all", NoBody)
  }

  /** `getPetById(petId)` gets "/pets/" followed by the id text. */
  function GetPetById(petId: string): (r: Req)
    ensures r.verb == Get && r.body == NoBody
    ensures |r.path| == 6 + |petId| && r.path[..6] == "/pets/" && r.path[6..] == petId
  {
    Req(Get, "/pets/" + petId, NoBody)
  }

  /** `addPet` and `updatePet` catch every failure and throw a fresh `Error`, which
      has no `response`: a resolved response passes through, any rejection reaches
      the caller as a rejection without a response. */
  function PlainErrorOnFailure<D>(raw: Outcome<D>): (o: Outcome<D>)
    ensures raw.Resolved? ==> o == raw
    ensures !raw.Resolved? ==> o == RejectedNoResponse
  {
    if raw.Resolved? then raw else RejectedNoResponse
  }

  /** `addPet` and `updatePet` never address the same path. */
  lemma AddAndUpdateDistinct(a: PetFields, b: PetFields, id: int)
    ensures AddPet(a).path != UpdatePet(id, b).path
  {
    var t := IntToString(id);
    assert t[0] == '-' || IsDecimalDigit(t[0]);
    assert UpdatePet(id, b).path == "/" + t;
    assert ("/" + t)[1] == t[0];
  }

  /** `getPetById(p)` is the same request as `getAllPetsByUserId()` exactly when
      p is "all". */
  lemma GetPetByIdCollidesOnlyWithAll(petId: string)
    ensures GetPetById(petId) == GetAllPetsByUserId() <==> petId == "all"
  {
    if GetPetById(petId) == GetAllPetsByUserId() {
      assert petId == GetPetById(petId).path[6..];
      assert "/pets/all"[6..] == "all";
    }
  }

  /** The path of `updatePet` determines the pet id. */
  lemma UpdatePathDeterminesId(id: int, id2: int, a: PetFields, b: PetFields)
    requires UpdatePet(id, a).path == UpdatePet(id2, b).path
    ensures id == id2
  {
    assert ParseInt(UpdatePet(id, a).path[1..], 10) == Int(id);
    assert ParseInt(UpdatePet(id2, b).path[1..], 10) == Int(id2);
  }

  const AuthorizationHeader := "Authorization"

  /** The headers the interceptor leaves for a stored token: with a JS-truthy token
      the `Authorization` header is "Bearer " and the token; otherwise the header is
      deleted. */
  function WithAuthorization(headers: map<string, string>, token: Option<string>): map<string, string>
  {
    if token.Some? && Truthy(token.value) then headers[AuthorizationHeader := "Bearer " + token.value]
    else headers - {AuthorizationHeader}
  }

  /** The header is present exactly when the token is a non-empty string, and then
      holds exactly "Bearer " + token. */
  lemma AuthorizationIffToken(headers: map<string, string>, token: Option<string>)
    ensures AuthorizationHeader in WithAuthorization(headers, token) <==> token.Some? && token.value != ""
    ensures token.Some? && token.value != "" ==>
      WithAuthorization(headers, token)[AuthorizationHeader] == "Bearer " + token.value
  {
  }

  /** Every other header is left as it was. */
  lemma OtherHeadersUnchanged(headers: map<string, string>, token: Option<string>)
    ensures forall k :: k != AuthorizationHeader ==>
      (k in WithAuthorization(headers, token) <==> k in headers)
    ensures forall k :: k != AuthorizationHeader && k in headers ==>
      WithAuthorization(headers, token)[k] == headers[k]
  {
  }

  /** Intercepting twice against the same storage gives the headers of once. */
  lemma InterceptIdempotent(headers: map<string, string>, token: Option<string>)
    ensures WithAuthorization(WithAuthorization(headers, token), token) == WithAuthorization(headers, token)
  {
  }

  /** The part of an axios request config the interceptor sees. */
  class RequestConfig {
    var headers: map<string, string>
    var verb: Verb
    var url: string
    var data: ReqBody

    constructor (r: Req, initialHeaders: map<string, string>)
      ensures headers == initialHeaders && verb == r.verb && url == r.path && data == r.body
    {
      headers := initialHeaders;
      verb := r.verb;
      url := r.path;
      data := r.body;
    }
  }

  /** The request interceptor: reads `jwtToken` from storage and sets or deletes
      `config.headers.Authorization` in place; it returns the same config object
      and touches nothing but its headers. */
  method Intercept(config: RequestConfig, storage: LocalStorage) returns (r: RequestConfig)
    modifies config`headers
    ensures r == config
    ensures config.headers == WithAuthorization(old(config.headers), Lookup(storage.items, JwtTokenKey))
  {
    var jwtToken := storage.GetItem(JwtTokenKey);
    if jwtToken.Some? && Truthy(jwtToken.value) {
      config.headers := config.headers[AuthorizationHeader := "Bearer " + jwtToken.value];
    } else {
      config.headers := config.headers - {AuthorizationHeader};
    }
    r := config;
  }

  /** After a logout, the next request carries no `Authorization` header. */
  lemma NoAuthorizationAfterLogout(items: map<string, string>, headers: map<string, string>)
    ensures AuthorizationHeader !in WithAuthorization(headers, Lookup(SignedOut(items), JwtTokenKey))
  {
  }

  /** After a login stored a non-empty token, every request carries it as a bearer token. */
  lemma BearerAfterLogin(items: map<string, string>, headers: map<string, string>,
                         token: string, firstName: string, lastName: string)
    requires token != ""
    ensures WithAuthorization(headers, Lookup(SignedIn(items, token, firstName, lastName), JwtTokenKey))
         == headers[AuthorizationHeader := "Bearer " + token]
  {
    SignedInHoldsSession(items, token, firstName, lastName);
  }
}
