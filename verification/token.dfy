/** OAuth2 tokens in auth files. A token is merged into a decoded JSON object at
    the top level and into its "sso" and "token" sub-objects, and read back from
    whichever of them the reader prefers. */
module Token {
  import opened Common

  /** A decoded JSON value. Numbers are floating point when they come from a file
      and integers when the program stored them itself. */
  datatype Json = Null | Bool(b: bool) | Str(s: string) | Float(f: real) | Int(i: int) | List(items: seq<Json>)
    | Obj(fields: Fields)

  /** The keys the token code names; every other key of an auth file is `Other`. */
  datatype Key = AccessToken | RefreshToken | TokenType | ExpiresAt | ExpiresIn | Sso | TokenMap | Other(name: string)

  type Fields = map<Key, Json>

  /** Expiry is in nanoseconds since the epoch; absent is the zero time. */
  datatype OAuthToken = OAuthToken(access: string, refresh: string, kind: string, expiry: Option<int>)

  const MISSING_REFRESH := "missing refresh_token in auth file"

  // ------------------------------------------------------------------ reader

  function Get(fields: Fields, key: Key): (v: Json) { if key in fields then fields[key] else Null }

  function StringAt(fields: Fields, key: Key): (s: string) {
    if Get(fields, key).Str? then fields[key].s else ""
  }

  /** The string under `key` in the preferred object, else at the top level. */
  function StringIn(target: Fields, fields: Fields, key: Key): (s: string) {
    if StringAt(target, key) != "" then StringAt(target, key) else StringAt(fields, key)
  }

  function Target(fields: Fields): (target: Fields) {
    if Get(fields, Sso).Obj? then fields[Sso].fields
    else if Get(fields, TokenMap).Obj? then fields[TokenMap].fields
    else fields
  }

  function Seconds(v: Json): (s: Option<int>) {
    match v
    case Float(f) => if Truncate(f) > 0 then Some(Truncate(f)) else None
    case Int(i) => if i > 0 then Some(i) else None
    case _ => None
  }

  function FirstSeconds(target: Fields, fields: Fields, key: Key): (s: Option<int>) {
    if Seconds(Get(target, key)).Some? then Seconds(Get(target, key)) else Seconds(Get(fields, key))
  }

  function ReadExpiry(target: Fields, fields: Fields, now: int): (e: Option<int>) {
    match FirstSeconds(target, fields, ExpiresAt)
    case Some(at) => Some(at * SECOND)
    case None =>
      match FirstSeconds(target, fields, ExpiresIn)
      case Some(d) => Some(now + d * SECOND)
      case None => None
  }

  function Read(fields: Fields, now: int): (r: Result<OAuthToken, string>) {
    var target := Target(fields);
    if StringIn(target, fields, RefreshToken) == "" then Err(MISSING_REFRESH)
    else Ok(OAuthToken(StringIn(target, fields, AccessToken), StringIn(target, fields, RefreshToken),
                       StringIn(target, fields, TokenType), ReadExpiry(target, fields, now)))
  }

  /** A token while it is put together. */
  class Draft {
    var access: string
    var refresh: string
    var kind: string
    var expiry: Option<int>

    constructor (access: string, refresh: string, kind: string)
      ensures View() == OAuthToken(access, refresh, kind, None)
    {
      this.access, this.refresh, this.kind, expiry := access, refresh, kind, None;
    }

    ghost function View(): OAuthToken
      reads this
    {
      OAuthToken(access, refresh, kind, expiry)
    }

    method SetAbsoluteExpiry(raw: Json) returns (done: bool)
      modifies `expiry
      ensures done <==> Seconds(raw).Some?
      ensures expiry == if done then Some(Seconds(raw).value * SECOND) else old(expiry)
    {
      var expiresAt: int;
      match raw {
        case Float(f) => expiresAt := Truncate(f);
        case Int(i) => expiresAt := i;
        case _ => return false;
      }
      if expiresAt <= 0 {
        return false;
      }
      expiry := Some(expiresAt * SECOND);
      return true;
    }

    method SetRelativeExpiry(raw: Json, now: int) returns (done: bool)
      modifies `expiry
      ensures done <==> Seconds(raw).Some?
      ensures expiry == if done then Some(now + Seconds(raw).value * SECOND) else old(expiry)
    {
      var expiresIn: int;
      match raw {
        case Float(f) => expiresIn := Truncate(f);
        case Int(i) => expiresIn := i;
        case _ => return false;
      }
      if expiresIn <= 0 {
        return false;
      }
      expiry := Some(now + expiresIn * SECOND);
      return true;
    }
  }

  /** `fields` is absent for a nil map. */
  method TokenFromFields(fields: Option<Fields>, now: int) returns (r: Result<Draft, string>)
    ensures var read := if fields.Some? then Read(fields.value, now) else Err(MISSING_REFRESH);
            if read.Err? then r == Err(read.error) else r.Ok? && fresh(r.value) && r.value.View() == read.value
  {
    if fields.None? {
      return Err(MISSING_REFRESH);
    }
    var top := fields.value;
    var target := top;
    if Get(top, Sso).Obj? {
      target := top[Sso].fields;
    } else if Get(top, TokenMap).Obj? {
      target := top[TokenMap].fields;
    }
    var refresh := StringAt(target, RefreshToken);
    if refresh == "" {
      refresh := StringAt(top, RefreshToken);
      if refresh == "" {
        return Err(MISSING_REFRESH);
      }
    }
    var access := StringAt(target, AccessToken);
    if access == "" {
      access := StringAt(top, AccessToken);
    }
    var kind := StringAt(target, TokenType);
    if kind == "" {
      kind := StringAt(top, TokenType);
    }
    var tok := new Draft(access, refresh, kind);
    var done := tok.SetAbsoluteExpiry(Get(target, ExpiresAt));
    if !done {
      done := tok.SetAbsoluteExpiry(Get(top, ExpiresAt));
    }
    if !done {
      done := tok.SetRelativeExpiry(Get(target, ExpiresIn), now);
      if !done {
        done := tok.SetRelativeExpiry(Get(top, ExpiresIn), now);
      }
    }
    return Ok(tok);
  }

  // ------------------------------------------------------------------- merge

  /** Whole seconds since the epoch, rounded down. */
  function Unix(t: int): (s: int)
    ensures s * SECOND <= t < (s + 1) * SECOND
  {
    t / SECOND
  }

  /** What a merge writes under a key, if anything. */
  function Written(tok: OAuthToken, key: Key): (v: Option<Json>) {
    match key
    case AccessToken => Some(Str(tok.access))
    case RefreshToken => if tok.refresh != "" then Some(Str(tok.refresh)) else None
    case TokenType => if tok.kind != "" then Some(Str(tok.kind)) else None
    case ExpiresAt => if tok.expiry.Some? then Some(Int(Unix(tok.expiry.value))) else None
    case _ => None
  }

  function Look(fields: Fields, key: Key): (v: Option<Json>) { if key in fields then Some(fields[key]) else None }

  /** One object after the token keys were put into it: no other key moved. */
  ghost predicate IsPut(before: Fields, after: Fields, tok: OAuthToken) {
    forall k :: Look(after, k) == if Written(tok, k).Some? then Written(tok, k) else Look(before, k)
  }

  /** The whole document after a merge: the top level and each nested token object
      got the token keys, and nothing else changed at any level. */
  ghost predicate IsMerge(before: Fields, after: Fields, tok: OAuthToken) {
    forall k ::
      if (k == Sso || k == TokenMap) && Get(before, k).Obj?
      then Get(after, k).Obj? && IsPut(before[k].fields, after[k].fields, tok)
      else Look(after, k) == if Written(tok, k).Some? then Written(tok, k) else Look(before, k)
  }

  method PutToken(fields: Fields, tok: OAuthToken) returns (r: Fields)
    ensures IsPut(fields, r, tok)
  {
    r := fields[AccessToken := Str(tok.access)];
    if tok.refresh != "" {
      r := r[RefreshToken := Str(tok.refresh)];
    }
    if tok.kind != "" {
      r := r[TokenType := Str(tok.kind)];
    }
    if tok.expiry.Some? {
      r := r[ExpiresAt := Int(Unix(tok.expiry.value))];
    }
  }

  /** A decoded auth file. */
  class AuthFile {
    var fields: Fields

    constructor ()
      ensures fields == map[]
    {
      fields := map[];
    }
  }

  /** Writes the token into the file in place, or into a new one when there is none. */
  method MergeToken(file: AuthFile?, tok: OAuthToken) returns (r: AuthFile)
    modifies file
    ensures if file != null then r == file else fresh(r)
    ensures IsMerge(if file != null then old(file.fields) else map[], r.fields, tok)
  {
    if file != null {
      r := file;
    } else {
      r := new AuthFile();
    }
    ghost var before := r.fields;
    r.fields := PutToken(r.fields, tok);
    assert Look(r.fields, Sso) == Look(before, Sso) && Look(r.fields, TokenMap) == Look(before, TokenMap);
    if Get(r.fields, Sso).Obj? {
      var sso := PutToken(r.fields[Sso].fields, tok);
      r.fields := r.fields[Sso := Obj(sso)];
    }
    if Get(r.fields, TokenMap).Obj? {
      var tokenMap := PutToken(r.fields[TokenMap].fields, tok);
      r.fields := r.fields[TokenMap := Obj(tokenMap)];
    }
  }

  // ---------------------------------------------------------- what is read where

  /** The object has a string under the key, and it is not empty. */
  predicate HasText(fields: Fields, key: Key) { key in fields && fields[key].Str? && fields[key].s != "" }

  /** The text is under `key` in the nested object, or, where that has none, on top. */
  predicate IsNestedOrTop(text: string, nested: Fields, top: Fields, key: Key) {
    && (HasText(nested, key) ==> text == nested[key].s)
    && (!HasText(nested, key) && HasText(top, key) ==> text == top[key].s)
    && (!HasText(nested, key) && !HasText(top, key) ==> text == "")
  }

  /** `nested` is the object that the reader prefers: the sso object, else the token
      object, else the top level itself. */
  predicate IsPreferred(nested: Fields, top: Fields) {
    if Sso in top && top[Sso].Obj? then top[Sso] == Obj(nested)
    else if TokenMap in top && top[TokenMap].Obj? then top[TokenMap] == Obj(nested)
    else nested == top
  }

  /** A file reads as a token exactly when a refresh token can be found in it, and each
      of its strings is the nested one before the one on top. */
  lemma StringsAreNestedOrTop(top: Fields, nested: Fields, now: int)
    requires IsPreferred(nested, top)
    ensures Read(top, now).Ok? <==> HasText(nested, RefreshToken) || HasText(top, RefreshToken)
    ensures Read(top, now).Ok? ==>
      var tok := Read(top, now).value;
      && IsNestedOrTop(tok.access, nested, top, AccessToken)
      && IsNestedOrTop(tok.refresh, nested, top, RefreshToken)
      && IsNestedOrTop(tok.kind, nested, top, TokenType)
  {
  }

  /** A positive number of whole seconds, from a file or from the program. */
  predicate HasSeconds(fields: Fields, key: Key, seconds: int) {
    key in fields && seconds > 0
    && (fields[key] == Int(seconds) || (fields[key].Float? && fields[key].f.Floor == seconds))
  }

  /** The expiry is the absolute one if any is there, else the relative one, and of
      each the nested one first. */
  lemma ExpiryIsAbsoluteFirst(top: Fields, nested: Fields, now: int, at: int)
    requires IsPreferred(nested, top) && Read(top, now).Ok?
    ensures var expiry := Read(top, now).value.expiry;
            && (HasSeconds(nested, ExpiresAt, at) ==> expiry == Some(at * SECOND))
            && ((forall n :: !HasSeconds(nested, ExpiresAt, n)) ==>
                  && (HasSeconds(top, ExpiresAt, at) ==> expiry == Some(at * SECOND))
                  && ((forall n :: !HasSeconds(top, ExpiresAt, n)) ==>
                        && (HasSeconds(nested, ExpiresIn, at) ==> expiry == Some(now + at * SECOND))
                        && ((forall n :: !HasSeconds(nested, ExpiresIn, n)) ==>
                              && (HasSeconds(top, ExpiresIn, at) ==> expiry == Some(now + at * SECOND))
                              && ((forall n :: !HasSeconds(top, ExpiresIn, n)) ==> expiry == None))))
  {
    SecondsAreThere(nested, ExpiresAt);
    SecondsAreThere(top, ExpiresAt);
    SecondsAreThere(nested, ExpiresIn);
    SecondsAreThere(top, ExpiresIn);
  }

  lemma SecondsAreThere(fields: Fields, key: Key)
    ensures forall n :: HasSeconds(fields, key, n) <==> Seconds(Get(fields, key)) == Some(n)
  {
  }

  // ----------------------------------------------------- reading a merge back

  /** An expiry in the first second of the epoch or before is stored, never read. */
  predicate ReadableExpiry(tok: OAuthToken) { tok.expiry.Some? && Unix(tok.expiry.value) > 0 }

  /** The reader finds the written keys in the object it prefers and at the top
      level, and every other key as it was. */
  lemma MergeSeenByReader(before: Fields, after: Fields, tok: OAuthToken, key: Key)
    requires IsMerge(before, after, tok) && key != Sso && key != TokenMap
    ensures Get(after, key) == if Written(tok, key).Some? then Written(tok, key).value else Get(before, key)
    ensures Get(Target(after), key)
            == if Written(tok, key).Some? then Written(tok, key).value else Get(Target(before), key)
  {
    assert Look(after, key) == if Written(tok, key).Some? then Written(tok, key) else Look(before, key);
    assert Get(before, Sso).Obj? <==> Get(after, Sso).Obj? by { var _ := Look(after, Sso); }
    assert Get(before, TokenMap).Obj? <==> Get(after, TokenMap).Obj? by { var _ := Look(after, TokenMap); }
    var t, t' := Target(before), Target(after);
    if Get(before, Sso).Obj? || Get(before, TokenMap).Obj? {
      assert IsPut(t, t', tok);
      assert Look(t', key) == if Written(tok, key).Some? then Written(tok, key) else Look(t, key);
    }
  }

  /** Reading a merged token back gives the new access token, and the new refresh
      token and type where they were set, else what was readable before. */
  lemma MergedStringsReadBack(before: Fields, after: Fields, tok: OAuthToken, now: int)
    requires IsMerge(before, after, tok)
    ensures Read(after, now).Ok? <==> tok.refresh != "" || Read(before, now).Ok?
    ensures Read(after, now).Ok? ==>
      var r := Read(after, now).value;
      && r.access == tok.access
      && r.refresh == (if tok.refresh != "" then tok.refresh else Read(before, now).value.refresh)
      && r.kind == (if tok.kind != "" then tok.kind else StringIn(Target(before), before, TokenType))
  {
    MergeSeenByReader(before, after, tok, AccessToken);
    MergeSeenByReader(before, after, tok, RefreshToken);
    MergeSeenByReader(before, after, tok, TokenType);
  }

  /** The expiry reads back as the whole second it was set to when that second
      lies after the epoch; unset, it reads as before; set but unreadable, it hides
      an earlier absolute expiry and leaves the relative one. */
  lemma MergedExpiryReadsBack(before: Fields, after: Fields, tok: OAuthToken, now: int)
    requires IsMerge(before, after, tok)
    ensures ReadableExpiry(tok) ==> ReadExpiry(Target(after), after, now) == Some(Unix(tok.expiry.value) * SECOND)
    ensures tok.expiry.None? ==> ReadExpiry(Target(after), after, now) == ReadExpiry(Target(before), before, now)
    ensures tok.expiry.Some? && !ReadableExpiry(tok) ==>
      ReadExpiry(Target(after), after, now)
      == match FirstSeconds(Target(before), before, ExpiresIn) {
           case Some(d) => Some(now + d * SECOND)
           case None => None
         }
  {
    MergeSeenByReader(before, after, tok, ExpiresAt);
    MergeSeenByReader(before, after, tok, ExpiresIn);
  }
}
