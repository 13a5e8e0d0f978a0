/**
 * The browser side of a session as `frontend/database.js` keeps it: the
 * token held by the client object and mirrored in localStorage, the headers
 * of every API request, and how a reply becomes a value or an error.
 */
module ApiClient {
  import opened Wrappers
  import opened Http
  import Auth

  /** The browser's localStorage: string values under string keys. */
  class LocalStorage {
    var items: map<string, string>

    constructor (items: map<string, string>)
      ensures this.items == items
    {
      this.items := items;
    }

    /** `getItem(key)`: the stored value, or null (None) when the key is absent. */
    function GetItem(key: string): (v: Option<string>)
      reads this
      ensures v.Some? <==> key in items
      ensures v.Some? ==> v.value == items[key]
    {
      if key in items then Some(items[key]) else None
    }

    /** `setItem(key, value)`. */
    method SetItem(key: string, value: string)
      modifies this
      ensures items == old(items)[key := value]
    {
      items := items[key := value];
    }

    /** `removeItem(key)`. */
    method RemoveItem(key: string)
      modifies this
      ensures items == old(items) - {key}
    {
      items := items - {key};
    }
  }

  const ApiUrl := "http://localhost:3000/api"
  const TokenKey := "token"
  const UserKey := "currentUser"
  const ContentType := "Content-Type"
  const Authorization := "Authorization"
  const Json := "application/json"

  /** Failure texts when a non-ok reply has no `error` of its own. */
  const RequestFailed := "API Request Failed"
  const ApiError := "API error"

  /** What `setItem` stores for a token the reply did not carry: the string "undefined". */
  const Undefined := "undefined"

  /** A held token counts only when it is truthy: present and not the empty string. */
  predicate Truthy(token: Option<string>)
  {
    token.Some? && token.value != ""
  }

  /**
   * The headers of a request: the JSON content type, then the caller's own
   * headers over it, then `Authorization: Bearer <token>` when a token is held.
   */
  function RequestHeaders(token: Option<string>, caller: map<string, string>): (h: map<string, string>)
    ensures h.Keys == caller.Keys + {ContentType} + (if Truthy(token) then {Authorization} else {})
    ensures Truthy(token) ==> h[Authorization] == "Bearer " + token.value
    ensures !Truthy(token) && Authorization in caller ==> h[Authorization] == caller[Authorization]
    ensures h[ContentType] == if ContentType in caller then caller[ContentType] else Json
    ensures forall k :: k in caller && k != Authorization ==> h[k] == caller[k]
    ensures forall k :: k in h && k != Authorization && k != ContentType ==> k in caller
  {
    var merged := map[ContentType := Json] + caller;
    if Truthy(token) then merged[Authorization := "Bearer " + token.value] else merged
  }

  /** One API request as `fetch` receives it. */
  datatype Request<B> = Request(url: string, verb: string, headers: map<string, string>, body: Option<B>)

  /** The server, as seen from the browser: the reply to each request. */
  type Fetch<!B, T> = Request<B> -> Response<T>

  /** The request `apiCall(endpoint, options)` sends, from a client holding `token`. */
  function Outgoing<B>(apiUrl: string, token: Option<string>, endpoint: string, verb: string,
                       caller: map<string, string>, body: Option<B>): (r: Request<B>)
    ensures r.url == apiUrl + endpoint && r.verb == verb && r.body == body
    ensures Authorization in r.headers <==> Truthy(token) || Authorization in caller
    ensures Truthy(token) ==> r.headers[Authorization] == "Bearer " + token.value
  {
    Request(apiUrl + endpoint, verb, RequestHeaders(token, caller), body)
  }

  /** The token a settled session reply leaves in the client: `result.token`, or none. */
  function HeldToken(body: Body<Auth.Session>): Option<string>
  {
    if body.Json? then Some(body.value.token) else None
  }

  /** What `localStorage.setItem('token', result.token)` stores. */
  function StoredToken(body: Body<Auth.Session>): string
  {
    if body.Json? then body.value.token else Undefined
  }

  /** `result.user`, or none when the body has no user. */
  function ReturnedUser(body: Body<Auth.Session>): Option<Auth.PublicUser>
  {
    if body.Json? then Some(body.value.user) else None
  }

  /** `response.ok`: a 2xx status. */
  predicate Ok(status: int)
  {
    200 <= status < 300
  }

  /**
   * What `apiCall` makes of a reply: an ok reply's body is returned as it is;
   * any other is thrown as its `error` text, or the fallback when that is
   * missing or empty.
   */
  function Settle<T>(reply: Response<T>, fallback: string): (r: Result<Body<T>, string>)
    ensures r.Success? <==> Ok(reply.status)
    ensures r.Success? ==> r.value == reply.body
    ensures r.Failure? && reply.body.ErrorBody? && reply.body.error != "" ==> r.error == reply.body.error
    ensures r.Failure? && !(reply.body.ErrorBody? && reply.body.error != "") ==> r.error == fallback
  {
    if Ok(reply.status) then Success(reply.body)
    else if reply.body.ErrorBody? && reply.body.error != "" then Failure(reply.body.error)
    else Failure(fallback)
  }

  /** The client of `frontend/database.js`. */
  class Database {
    const apiUrl: string
    var token: Option<string>
    const storage: LocalStorage

    /** Starts from the token saved in localStorage, if any. */
    constructor (storage: LocalStorage)
      ensures this.storage == storage && apiUrl == ApiUrl
      ensures token == storage.GetItem(TokenKey)
    {
      this.storage := storage;
      apiUrl := ApiUrl;
      token := storage.GetItem(TokenKey);
    }

    /** `apiCall`: sends the request and settles the reply; it changes nothing. */
    method ApiCall<B, T>(fetch: Fetch<B, T>, endpoint: string, verb: string, caller: map<string, string>, body: Option<B>)
      returns (r: Result<Body<T>, string>)
      ensures r == Settle(fetch(Outgoing(apiUrl, token, endpoint, verb, caller, body)), RequestFailed)
    {
      var request := Outgoing(apiUrl, token, endpoint, verb, caller, body);
      r := Settle(fetch(request), RequestFailed);
    }

    /**
     * Saves the token of a settled session reply in the field and in
     * localStorage; a body without a token leaves null in the field and the
     * string "undefined" in storage.
     */
    method SaveSession(body: Body<Auth.Session>)
      modifies this`token, storage
      ensures token == HeldToken(body)
      ensures storage.items == old(storage.items)[TokenKey := StoredToken(body)]
    {
      token := HeldToken(body);
      storage.SetItem(TokenKey, StoredToken(body));
    }

    /** `register(userData)`: POST `/auth/register`; on success the session is saved. */
    method Register(fetch: Fetch<Auth.RegisterBody, Auth.Session>, userData: Auth.RegisterBody)
      returns (r: Result<Option<Auth.PublicUser>, string>)
      modifies this`token, storage
      ensures var reply := Settle(fetch(Outgoing(apiUrl, old(token), "/auth/register", "POST", map[], Some(userData))), RequestFailed);
              && (reply.Failure? ==> r == Failure(reply.error) && token == old(token) && storage.items == old(storage.items))
              && (reply.Success? ==>
                    && r == Success(ReturnedUser(reply.value))
                    && token == HeldToken(reply.value)
                    && storage.items == old(storage.items)[TokenKey := StoredToken(reply.value)])
    {
      var reply := ApiCall(fetch, "/auth/register", "POST", map[], Some(userData));
      if reply.Failure? {
        return Failure(reply.error);
      }
      SaveSession(reply.value);
      r := Success(ReturnedUser(reply.value));
    }

    /** `login(email, password)`: POST `/auth/login`; on success the session is saved. */
    method Login(fetch: Fetch<Auth.LoginBody, Auth.Session>, email: string, password: string)
      returns (r: Result<Option<Auth.PublicUser>, string>)
      modifies this`token, storage
      ensures var reply := Settle(fetch(Outgoing(apiUrl, old(token), "/auth/login", "POST", map[], Some(Auth.LoginBody(Some(email), Some(password))))), RequestFailed);
              && (reply.Failure? ==> r == Failure(reply.error) && token == old(token) && storage.items == old(storage.items))
              && (reply.Success? ==>
                    && r == Success(ReturnedUser(reply.value))
                    && token == HeldToken(reply.value)
                    && storage.items == old(storage.items)[TokenKey := StoredToken(reply.value)])
    {
      var reply := ApiCall(fetch, "/auth/login", "POST", map[], Some(Auth.LoginBody(Some(email), Some(password))));
      if reply.Failure? {
        return Failure(reply.error);
      }
      SaveSession(reply.value);
      r := Success(ReturnedUser(reply.value));
    }

    /** `logout()`: forgets the token and drops both session keys from storage. */
    method Logout()
      modifies this`token, storage
      ensures token == None
      ensures storage.items == old(storage.items) - {TokenKey, UserKey}
    {
      token := None;
      storage.RemoveItem(TokenKey);
      storage.RemoveItem(UserKey);
    }
  }
}
