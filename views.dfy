/** The request-level guards of `views.py`: the CSRF token get-or-create on
    `request.META`, the `cur_user` removal at logout, and the `form_id == -1`
    rejection of `form_structure`. */
module Views {
  import opened Wrappers

  /** The Python values these views store in `META` and the session. */
  datatype PyValue = PyNone | PyBool(b: bool) | PyInt(i: int) | PyStr(s: string)

  const CsrfCookie := "CSRF_COOKIE"
  const CsrfCookieUsed := "CSRF_COOKIE_USED"
  const CurUser := "cur_user"

  /** `META.get('CSRF_COOKIE', None)`. */
  function StoredToken(meta: map<string, PyValue>): Option<PyValue>
  {
    if CsrfCookie in meta && meta[CsrfCookie] != PyNone then Some(meta[CsrfCookie]) else None
  }

  /** The token `get_or_create_csrf_token` returns and the `META` it leaves,
      given the string `csrf._get_new_csrf_string()` would produce. */
  function CsrfOutcome(meta: map<string, PyValue>, newCsrfString: string): (r: (PyValue, map<string, PyValue>))
    ensures StoredToken(meta).Some? ==> r.0 == meta[CsrfCookie]
    ensures StoredToken(meta).None? ==> r.0 == PyStr(newCsrfString)
    ensures CsrfCookie in r.1 && r.1[CsrfCookie] == r.0 && r.0 != PyNone
    ensures CsrfCookieUsed in r.1 && r.1[CsrfCookieUsed] == PyBool(true)
    ensures forall k :: k != CsrfCookie && k != CsrfCookieUsed ==>
              (k in r.1 <==> k in meta) && (k in meta ==> r.1[k] == meta[k])
  {
    var token := if StoredToken(meta).Some? then meta[CsrfCookie] else PyStr(newCsrfString);
    (token, meta[CsrfCookie := token][CsrfCookieUsed := PyBool(true)])
  }

  /** A second call on the same request returns the same token, whatever new
      string it could have drawn, and leaves `META` as the first call left it. */
  lemma CsrfIdempotent(meta: map<string, PyValue>, first: string, second: string)
    ensures CsrfOutcome(CsrfOutcome(meta, first).1, second) == CsrfOutcome(meta, first)
  {
    var (token, meta1) := CsrfOutcome(meta, first);
    assert meta1[CsrfCookie := token][CsrfCookieUsed := PyBool(true)] == meta1;
  }

  /** The source of `csrf._get_new_csrf_string()`: an unbounded stream of
      strings, of which `drawn` have been used. */
  class CsrfStringSource {
    const stream: nat -> string
    var drawn: nat

    constructor (stream: nat -> string)
      ensures this.stream == stream && drawn == 0
    {
      this.stream := stream;
      drawn := 0;
    }

    method NewCsrfString() returns (s: string)
      modifies this`drawn
      ensures s == stream(old(drawn)) && drawn == old(drawn) + 1
    {
      s := stream(drawn);
      drawn := drawn + 1;
    }
  }

  /** The parts of a Django request these views touch. */
  class HttpRequest {
    var meta: map<string, PyValue>
    var session: map<string, PyValue>

    constructor (meta: map<string, PyValue>, session: map<string, PyValue>)
      ensures this.meta == meta && this.session == session
    {
      this.meta := meta;
      this.session := session;
    }
  }

  /** `get_or_create_csrf_token(request)`: reuse the stored token or store a
      new one, and mark the cookie used. A new string is drawn only when no
      token is stored. */
  method GetOrCreateCsrfToken(request: HttpRequest, source: CsrfStringSource) returns (token: PyValue)
    modifies request`meta, source`drawn
    ensures (token, request.meta) == CsrfOutcome(old(request.meta), source.stream(old(source.drawn)))
    ensures source.drawn == old(source.drawn) + if StoredToken(old(request.meta)).None? then 1 else 0
  {
    var stored := if CsrfCookie in request.meta then request.meta[CsrfCookie] else PyNone;
    token := stored;
    if token == PyNone {
      var s := source.NewCsrfString();
      token := PyStr(s);
      request.meta := request.meta[CsrfCookie := token];
    } else {
      assert request.meta[CsrfCookie := token] == request.meta;
    }
    request.meta := request.meta[CsrfCookieUsed := PyBool(true)];
  }

  /** Two calls on one request: the same token, and at most one string drawn. */
  method CsrfTwice(request: HttpRequest, source: CsrfStringSource) returns (first: PyValue, second: PyValue)
    modifies request`meta, source`drawn
    ensures first == second
    ensures source.drawn <= old(source.drawn) + 1
    ensures StoredToken(old(request.meta)).Some? ==> source.drawn == old(source.drawn)
  {
    first := GetOrCreateCsrfToken(request, source);
    second := GetOrCreateCsrfToken(request, source);
  }

  /** Where a view sends the browser. */
  datatype Redirect = Redirect(location: string)

  /** `user_logout`, after Django's own `logout(request)`: the `cur_user`
      entry is removed if present, nothing else in the session changes, and
      the browser goes to `/`. */
  method UserLogout(request: HttpRequest) returns (response: Redirect)
    modifies request`session
    ensures CurUser !in request.session
    ensures request.session == old(request.session) - {CurUser}
    ensures response == Redirect("/")
  {
    if CurUser in request.session {
      request.session := request.session - {CurUser};
    }
    response := Redirect("/");
  }

  /** What `form_structure` answers. */
  datatype Response<S> = SystemSettingsPage | JsonError(message: string) | JsonStructure(structure: S)

  /** The answer and the form ids the parser was asked for, in order. */
  datatype Handled<S> = Handled(response: Response<S>, structureRequests: seq<int>)

  const SelectFormMessage := "Please select a form to get the structure from"

  /** `form_structure(request)`. `isFirstLogin` and `onaSettingsSaved` are the
      parser's answers, `postedFormId` is `request.POST['form_id']` (None when
      absent), `missingKeyMessage` is the text of the framework's `KeyError`
      for that missing key, `parseInt` stands for Python's `int()` (an error
      carries the exception text), and `getStructure` for the parser's
      `get_form_structure_as_json`. */
  function FormStructure<S>(isFirstLogin: PyValue, onaSettingsSaved: PyValue, postedFormId: Option<string>,
                            missingKeyMessage: string,
                            parseInt: string -> Result<int, string>,
                            getStructure: int -> Result<S, string>): (r: Handled<S>)
    ensures isFirstLogin == PyBool(true) || onaSettingsSaved == PyBool(false) ==> r == Handled(SystemSettingsPage, [])
    ensures forall id :: id in r.structureRequests ==> id != -1
    ensures |r.structureRequests| <= 1
    ensures r.response.JsonStructure? ==>
              postedFormId.Some? && parseInt(postedFormId.value).Ok?
              && r.structureRequests == [parseInt(postedFormId.value).value]
              && getStructure(r.structureRequests[0]) == Ok(r.response.structure)
    ensures isFirstLogin != PyBool(true) && onaSettingsSaved != PyBool(false) ==>
              match postedFormId
              case None => r == Handled(JsonError(missingKeyMessage), [])
              case Some(posted) =>
                match parseInt(posted)
                case Err(e) => r == Handled(JsonError(e), [])
                case Ok(id) =>
                  if id == -1 then r == Handled(JsonError(SelectFormMessage), [])
                  else
                    && r.structureRequests == [id]
                    && (r.response.JsonStructure? <==> getStructure(id).Ok?)
                    && (getStructure(id).Err? ==> r.response == JsonError(getStructure(id).error))
  {
    if isFirstLogin == PyBool(true) || onaSettingsSaved == PyBool(false) then Handled(SystemSettingsPage, [])
    else if postedFormId.None? then Handled(JsonError(missingKeyMessage), [])
    else
      match parseInt(postedFormId.value)
      case Err(e) => Handled(JsonError(e), [])
      case Ok(formId) =>
        if formId == -1 then Handled(JsonError(SelectFormMessage), [])
        else
          match getStructure(formId)
          case Err(e) => Handled(JsonError(e), [formId])
          case Ok(structure) => Handled(JsonStructure(structure), [formId])
  }
}
