/**
 * The `Authorization` header: `strings.Fields`, `strings.ToLower` and the
 * bearer-scheme parse shared by both gin authentication middlewares.
 */
module Bearer {
  import opened Wrappers

  /** `unicode.IsSpace` */
  predicate IsSpace(c: char) {
    c == '\t' || c == '\n' || c == '\U{000B}' || c == '\U{000C}' || c == '\r' || c == ' '
    || c == '\U{0085}' || c == '\U{00A0}' || c == '\U{1680}'
    || ('\U{2000}' <= c <= '\U{200A}')
    || c == '\U{2028}' || c == '\U{2029}' || c == '\U{202F}' || c == '\U{205F}' || c == '\U{3000}'
  }

  /** A field of `strings.Fields`: non-empty and free of white space. */
  predicate IsField(w: string) {
    |w| > 0 && forall i :: 0 <= i < |w| ==> !IsSpace(w[i])
  }

  /** The suffix left after the leading white space. */
  function SkipSpace(s: string): (r: string)
    ensures |r| <= |s| && r == s[|s| - |r|..]
    ensures |r| == 0 || !IsSpace(r[0])
    ensures forall i :: 0 <= i < |s| - |r| ==> IsSpace(s[i])
  {
    if |s| > 0 && IsSpace(s[0]) then SkipSpace(s[1..]) else s
  }

  /** The length of the leading run of non-white-space characters. */
  function WordLen(s: string): (n: nat)
    ensures n <= |s|
    ensures forall i :: 0 <= i < n ==> !IsSpace(s[i])
    ensures n < |s| ==> IsSpace(s[n])
  {
    if |s| > 0 && !IsSpace(s[0]) then 1 + WordLen(s[1..]) else 0
  }

  /** `strings.Fields`: the maximal runs of non-white-space characters, in order. */
  function Fields(s: string): (r: seq<string>)
    ensures |r| == 0 <==> forall i :: 0 <= i < |s| ==> IsSpace(s[i])
    decreases |s|
  {
    var t := SkipSpace(s);
    if |t| == 0 then []
    else
      var n := WordLen(t);
      [t[..n]] + Fields(t[n..])
  }

  /** Every field is non-empty and free of white space. */
  lemma {:induction false} FieldsAreFields(s: string)
    ensures forall i :: 0 <= i < |Fields(s)| ==> IsField(Fields(s)[i])
    decreases |s|
  {
    var t := SkipSpace(s);
    if |t| > 0 {
      var n := WordLen(t);
      assert IsField(t[..n]);
      FieldsAreFields(t[n..]);
    }
  }

  /** The fields joined by single spaces. */
  function Join(fs: seq<string>): string {
    if |fs| == 0 then ""
    else if |fs| == 1 then fs[0]
    else fs[0] + " " + Join(fs[1..])
  }

  lemma {:induction false} JoinStartsWithField(fs: seq<string>)
    requires |fs| > 0 && forall i :: 0 <= i < |fs| ==> IsField(fs[i])
    ensures |Join(fs)| > 0 && !IsSpace(Join(fs)[0])
  {
    if |fs| > 1 {
      assert Join(fs)[0] == fs[0][0];
    }
  }

  lemma {:induction false} WordLenOfField(w: string, rest: string)
    requires IsField(w)
    requires |rest| == 0 || IsSpace(rest[0])
    ensures WordLen(w + rest) == |w|
    decreases |w|
  {
    if |w| > 1 {
      assert (w + rest)[1..] == w[1..] + rest;
      WordLenOfField(w[1..], rest);
    } else {
      assert (w + rest)[1..] == rest;
    }
  }

  lemma {:induction false} FieldsAfterSpace(s: string)
    requires |s| > 0 && IsSpace(s[0])
    ensures Fields(s) == Fields(s[1..])
  {
    assert SkipSpace(s) == SkipSpace(s[1..]);
  }

  /** A single field splits into itself. */
  lemma {:induction false} FieldsOfField(w: string)
    requires IsField(w)
    ensures Fields(w) == [w]
  {
    assert SkipSpace(w) == w;
    WordLenOfField(w, "");
    assert w + "" == w;
    assert w[|w|..] == "";
  }

  /** A field followed by a space and anything splits off as the first field. */
  lemma {:induction false} FieldsOfCons(w: string, r: string)
    requires IsField(w)
    ensures Fields(w + " " + r) == [w] + Fields(r)
  {
    var rest := " " + r;
    var s := w + rest;
    assert w + " " + r == s;
    assert SkipSpace(s) == s;
    WordLenOfField(w, rest);
    assert s[..|w|] == w;
    assert s[|w|..] == rest;
    FieldsAfterSpace(rest);
    assert rest[1..] == r;
  }

  /** Splitting fields joined by single spaces gives the fields back. */
  lemma {:induction false} FieldsOfJoin(fs: seq<string>)
    requires forall i :: 0 <= i < |fs| ==> IsField(fs[i])
    ensures Fields(Join(fs)) == fs
  {
    if |fs| == 1 {
      FieldsOfField(fs[0]);
    } else if |fs| > 1 {
      var tail := fs[1..];
      assert forall i :: 0 <= i < |tail| ==> IsField(tail[i]) by {
        forall i | 0 <= i < |tail| ensures IsField(tail[i]) {
          assert tail[i] == fs[i + 1];
        }
      }
      FieldsOfJoin(tail);
      FieldsOfJoinStep(fs);
    }
  }

  /** The inductive step: the first field splits off, and the rest splits as before. */
  lemma {:induction false} FieldsOfJoinStep(fs: seq<string>)
    requires |fs| > 1 && IsField(fs[0])
    requires Fields(Join(fs[1..])) == fs[1..]
    ensures Fields(Join(fs)) == fs
  {
    assert Join(fs) == fs[0] + " " + Join(fs[1..]);
    FieldsOfCons(fs[0], Join(fs[1..]));
    assert fs == [fs[0]] + fs[1..];
  }

  /** `strings.ToLower` on ASCII letters; every other character is kept. */
  function ToLower(s: string): (r: string)
    ensures |r| == |s|
    ensures forall i :: 0 <= i < |s| ==> r[i] == if 'A' <= s[i] <= 'Z' then (s[i] as int + 32) as char else s[i]
  {
    if |s| == 0 then ""
    else [if 'A' <= s[0] <= 'Z' then (s[0] as int + 32) as char else s[0]] + ToLower(s[1..])
  }

  const HeaderMissing: string := "authorization header is not provided"
  const HeaderMalformed: string := "invalid authorization header format"

  /**
   * The header checks both middlewares make before verifying a token: the
   * header is present, has at least two fields, and its first field is
   * `bearer` in any case. The token is the second field; later fields are ignored.
   * A failure carries the message the 401 response shows.
   */
  function ParseBearer(header: string): (r: Result<string, string>)
    ensures |header| == 0 <==> r == Err(HeaderMissing)
    ensures r.Ok? <==> |header| > 0 && |Fields(header)| >= 2 && ToLower(Fields(header)[0]) == "bearer"
    ensures r.Ok? ==> r.value == Fields(header)[1]
  {
    if |header| == 0 then Err(HeaderMissing)
    else
      var fields := Fields(header);
      if |fields| < 2 then Err(HeaderMalformed)
      else
        var scheme := ToLower(fields[0]);
        if scheme != "bearer" then
          var msg := "unsupported authorization type " + scheme;
          assert msg[0] != HeaderMissing[0];
          Err(msg)
        else Ok(fields[1])
  }

  /** `Bearer <token>`, in any letter case and with any further fields, yields the token. */
  lemma {:induction false} ParseBearerOfHeader(scheme: string, token: string, extra: seq<string>)
    requires IsField(token) && IsField(scheme) && ToLower(scheme) == "bearer"
    requires forall i :: 0 <= i < |extra| ==> IsField(extra[i])
    ensures ParseBearer(Join([scheme, token] + extra)) == Ok(token)
  {
    var fs := [scheme, token] + extra;
    FieldsOfJoin(fs);
    JoinStartsWithField(fs);
  }
}
