/**
 * Input rules of apps/api/src/configs/schemas.ts: the email/password body schema used by
 * signup and login, and the `API_ORIGIN` defaulting of the environment schema.
 */
module Schemas {
  import opened Common
  import opened JsStrings

  // ---------------------------------------------------------------------------------------------
  // authSchema

  datatype AuthBody = AuthBody(email: string, password: string)

  /** A body that passed the schema, or the messages of every failed rule in schema order. */
  datatype AuthParse = Accepted(data: AuthBody) | Rejected(issues: seq<string>)

  predicate HasLower(p: string)   { exists i :: 0 <= i < |p| && 'a' <= p[i] <= 'z' }
  predicate HasUpper(p: string)   { exists i :: 0 <= i < |p| && 'A' <= p[i] <= 'Z' }
  predicate HasDigit(p: string)   { exists i :: 0 <= i < |p| && '0' <= p[i] <= '9' }
  predicate IsAsciiAlnum(c: char) { 'a' <= c <= 'z' || 'A' <= c <= 'Z' || '0' <= c <= '9' }
  predicate HasSpecial(p: string) { exists i :: 0 <= i < |p| && !IsAsciiAlnum(p[i]) }

  /** What an accepted (already trimmed) password satisfies; its length is counted in UTF-16 code units. */
  predicate StrongPassword(p: string)
  {
    p != [] && Utf16Length(p) >= 8 && HasLower(p) && HasUpper(p) && HasDigit(p) && HasSpecial(p)
  }

  /** The failed password rules, in the order the schema lists them, checked on the trimmed value. */
  function PasswordIssues(trimmed: string): (issues: seq<string>)
    ensures issues == [] <==> StrongPassword(trimmed)
  {
    (if trimmed == [] then ["Password is required"] else [])
    + (if Utf16Length(trimmed) < 8 then ["Password must be atleast 8 characters long"] else [])
    + (if !HasLower(trimmed) then ["Password must contain a lowercase letter"] else [])
    + (if !HasUpper(trimmed) then ["Password must contain a uppercase letter"] else [])
    + (if !HasDigit(trimmed) then ["Password must contain a digit"] else [])
    + (if !HasSpecial(trimmed) then ["Password must contain a speacial character"] else [])
  }

  /**
   * The email transform: the slice of `email` between its white-space borders, each character
   * lower-cased.
   */
  function NormalizeEmail(email: string): (r: string)
    ensures exists i, j :: 0 <= i <= j <= |email| && WhiteBorders(email, i, j) && |r| == j - i
                           && forall k :: 0 <= k < |r| ==> r[k] == LowerChar(email[i + k])
    ensures forall i :: 0 <= i < |r| ==> !('A' <= r[i] <= 'Z')
    ensures r == [] || (!IsJsWhitespace(r[0]) && !IsJsWhitespace(r[|r| - 1]))
  {
    var t := Trim(email);
    var r := ToLower(t);
    LowerOfSlice(email, t);
    r
  }

  /** Lower-casing a slice with white-space borders, character by character; its ends stay non-white. */
  lemma LowerOfSlice(email: string, t: string)
    requires exists i, j :: 0 <= i <= j <= |email| && t == email[i..j] && WhiteBorders(email, i, j)
    requires t == [] || (!IsJsWhitespace(t[0]) && !IsJsWhitespace(t[|t| - 1]))
    ensures ToLower(t) == [] || (!IsJsWhitespace(ToLower(t)[0]) && !IsJsWhitespace(ToLower(t)[|t| - 1]))
    ensures exists i, j :: 0 <= i <= j <= |email| && WhiteBorders(email, i, j) && |ToLower(t)| == j - i
                           && forall k :: 0 <= k < |ToLower(t)| ==> ToLower(t)[k] == LowerChar(email[i + k])
  {
    var r := ToLower(t);
    var i, j :| 0 <= i <= j <= |email| && t == email[i..j] && WhiteBorders(email, i, j);
    forall k | 0 <= k < |r|
      ensures r[k] == LowerChar(email[i + k])
    {
      assert t[k] == email[i + k];
    }
    if t != [] {
      LowerCharKeepsWhitespace(t[0]);
      LowerCharKeepsWhitespace(t[|t| - 1]);
    }
  }

  /** Normalising an already normalised email changes nothing. */
  lemma NormalizeEmailIdempotent(email: string)
    ensures NormalizeEmail(NormalizeEmail(email)) == NormalizeEmail(email)
  {
    var t := Trim(email);
    TrimToLower(t);
    TrimIdempotent(email);
    ToLowerIdempotent(t);
  }

  /**
   * `authSchema.safeParse(body)`. The email format check (zod's `z.email`) is the parameter
   * `isEmail` and runs on the raw value; every password rule runs on the trimmed value.
   */
  function ParseAuthBody(body: AuthBody, isEmail: string -> bool): (r: AuthParse)
    ensures r.Accepted? ==> r.data == AuthBody(NormalizeEmail(body.email), Trim(body.password))
    ensures r.Rejected? ==> r.issues != [] && (!isEmail(body.email) <==> r.issues[0] == "Invalid email")
  {
    var emailIssues := if isEmail(body.email) then [] else ["Invalid email"];
    var issues := emailIssues + PasswordIssues(Trim(body.password));
    if issues == [] then Accepted(AuthBody(NormalizeEmail(body.email), Trim(body.password)))
    else Rejected(issues)
  }

  /** A body is accepted exactly when the email passes and the trimmed password meets every rule. */
  lemma ParseAuthBodyAccepts(body: AuthBody, isEmail: string -> bool)
    ensures ParseAuthBody(body, isEmail).Accepted? <==> isEmail(body.email) && StrongPassword(Trim(body.password))
    ensures ParseAuthBody(body, isEmail).Accepted? ==>
      ParseAuthBody(body, isEmail).data == AuthBody(NormalizeEmail(body.email), Trim(body.password))
    ensures ParseAuthBody(body, isEmail).Rejected? ==> ParseAuthBody(body, isEmail).issues != []
  {
  }

  /** An accepted password is the trimmed input and satisfies every strength rule. */
  lemma AcceptedPasswordIsStrong(body: AuthBody, isEmail: string -> bool)
    requires ParseAuthBody(body, isEmail).Accepted?
    ensures var p := ParseAuthBody(body, isEmail).data.password;
      p == Trim(body.password) && Utf16Length(p) >= 8 && HasLower(p) && HasUpper(p) && HasDigit(p) && HasSpecial(p)
  {
    ParseAuthBodyAccepts(body, isEmail);
  }

  /**
   * Length is measured in UTF-16 code units: four ASCII characters and two emoji make eight units
   * (six characters), which is long enough.
   */
  lemma EmojiCountTwice()
    ensures PasswordIssues("Aa1!\U{1F600}\U{1F600}") == []
  {
    var p := "Aa1!\U{1F600}\U{1F600}";
    assert Utf16Length(p) == 8 by {
      assert p[1..] == "a1!\U{1F600}\U{1F600}";
      assert p[2..] == "1!\U{1F600}\U{1F600}";
      assert p[3..] == "!\U{1F600}\U{1F600}";
      assert p[4..] == "\U{1F600}\U{1F600}";
      assert p[5..] == "\U{1F600}";
      assert p[6..] == "";
    }
    assert HasLower(p) by { assert 'a' <= p[1] <= 'z'; }
    assert HasUpper(p) by { assert 'A' <= p[0] <= 'Z'; }
    assert HasDigit(p) by { assert '0' <= p[2] <= '9'; }
    assert HasSpecial(p) by { assert !IsAsciiAlnum(p[3]); }
  }

  // ---------------------------------------------------------------------------------------------
  // envSchema.superRefine

  datatype NodeEnv = Development | Test | Production

  datatype Issue = Issue(message: string, code: string, path: seq<string>)

  const ApiOriginIssue: Issue :=
    Issue("Invalid input: expected string, received undefined", "custom", ["API_ORIGIN"])

  const LocalhostOrigin: string := "http://localhost:"

  /** The parsed environment object `superRefine` receives and may update. */
  class EnvInput {
    const nodeEnv: NodeEnv
    const port: int
    var apiOrigin: Option<string>

    constructor (nodeEnv: NodeEnv, port: int, apiOrigin: Option<string>)
      ensures this.nodeEnv == nodeEnv && this.port == port && this.apiOrigin == apiOrigin
    {
      this.nodeEnv := nodeEnv;
      this.port := port;
      this.apiOrigin := apiOrigin;
    }
  }

  /** The refinement context: the issues recorded so far. */
  class RefinementContext {
    var issues: seq<Issue>

    constructor ()
      ensures issues == []
    {
      issues := [];
    }

    method AddIssue(issue: Issue)
      modifies this
      ensures issues == old(issues) + [issue]
    {
      issues := issues + [issue];
    }
  }

  /**
   * A missing `API_ORIGIN` is an issue in production and defaults to the local origin on
   * `PORT` elsewhere; a present one is left alone.
   */
  method SuperRefine(arg: EnvInput, ctx: RefinementContext)
    modifies arg, ctx
    ensures Truthy(old(arg.apiOrigin)) ==> arg.apiOrigin == old(arg.apiOrigin) && ctx.issues == old(ctx.issues)
    ensures !Truthy(old(arg.apiOrigin)) && arg.nodeEnv == Production ==>
      arg.apiOrigin == old(arg.apiOrigin) && ctx.issues == old(ctx.issues) + [ApiOriginIssue]
    ensures !Truthy(old(arg.apiOrigin)) && arg.nodeEnv != Production ==>
      arg.apiOrigin == Some(LocalhostOrigin + IntToString(arg.port)) && ctx.issues == old(ctx.issues)
  {
    if !Truthy(arg.apiOrigin) {
      if arg.nodeEnv == Production {
        ctx.AddIssue(ApiOriginIssue);
      } else {
        arg.apiOrigin := Some(LocalhostOrigin + IntToString(arg.port));
      }
    }
  }
}
