/**
 * The syntax check of an embedded image (backend/api/utils.py): a value is
 * accepted only when it is a string of the whole form
 * `data:image/<format>;base64,<payload>`, and is then split into its format
 * and its payload.
 */
module ImageUri {
  import opened Wrappers

  const Prefix := "data:image/"
  const Marker := ";base64,"

  /** A JSON value as it arrives in the payload: a string or anything else. */
  datatype Value = Str(s: string) | NonString

  datatype DataUri = DataUri(format: string, payload: string)

  datatype ImageError = FormatError

  predicate IsLower(c: char) { 'a' <= c <= 'z' }

  predicate IsBase64Char(c: char) {
    'a' <= c <= 'z' || 'A' <= c <= 'Z' || '0' <= c <= '9' || c == '+' || c == '/'
  }

  /** `[a-z]+` */
  predicate IsFormat(f: string) {
    |f| >= 1 && forall i :: 0 <= i < |f| ==> IsLower(f[i])
  }

  /** `={,2}` */
  predicate IsPadding(e: string) {
    |e| <= 2 && forall i :: 0 <= i < |e| ==> e[i] == '='
  }

  /** `[a-zA-Z0-9+/]+` */
  predicate IsBase64Body(b: string) {
    |b| >= 1 && forall i :: 0 <= i < |b| ==> IsBase64Char(b[i])
  }

  /** `[a-zA-Z0-9+/]+={,2}` */
  predicate IsPayload(p: string) {
    exists k :: 0 <= k <= |p| && IsBase64Body(p[..k]) && IsPadding(p[k..])
  }

  function Render(d: DataUri): string {
    Prefix + d.format + Marker + d.payload
  }

  /** Length of the longest leading run of lower-case letters. */
  function LowerRun(s: string): (n: nat)
    ensures n <= |s|
    ensures forall i :: 0 <= i < n ==> IsLower(s[i])
    ensures n < |s| ==> !IsLower(s[n])
  {
    if s == [] || !IsLower(s[0]) then 0 else 1 + LowerRun(s[1..])
  }

  /** Length of the longest leading run of base64 alphabet characters. */
  function Base64Run(s: string): (n: nat)
    ensures n <= |s|
    ensures forall i :: 0 <= i < n ==> IsBase64Char(s[i])
    ensures n < |s| ==> !IsBase64Char(s[n])
  {
    if s == [] || !IsBase64Char(s[0]) then 0 else 1 + Base64Run(s[1..])
  }

  /** The payload part: one or more alphabet characters, then at most two `=`. */
  function ParsePayload(format: string, p: string): (r: Result<DataUri, ImageError>)
    ensures r.Ok? ==> r.value == DataUri(format, p) && IsPayload(p)
  {
    var k := Base64Run(p);
    if k >= 1 && IsPadding(p[k..]) then
      assert IsBase64Body(p[..k]);
      Ok(DataUri(format, p))
    else Err(FormatError)
  }

  /** What follows `data:image/`: the letter run, `;base64,`, then the payload. */
  function ParseAfterPrefix(rest: string): (r: Result<DataUri, ImageError>)
    ensures r.Ok? ==> rest == r.value.format + Marker + r.value.payload
    ensures r.Ok? ==> IsFormat(r.value.format) && IsPayload(r.value.payload)
  {
    var n := LowerRun(rest);
    if n == 0 || !(Marker <= rest[n..]) then Err(FormatError)
    else
      var payload := rest[n + |Marker|..];
      assert rest == rest[..n] + Marker + payload by {
        assert rest == rest[..n] + rest[n..];
        assert rest[n..] == Marker + payload;
      }
      ParsePayload(rest[..n], payload)
  }

  /**
   * `get_image_from_base64` up to decoding: anything but a string, and any
   * string not wholly of the expected form, is a format error; otherwise the
   * letters between `image/` and `;` are the format and everything after
   * `base64,` is the payload.
   */
  function Parse(v: Value): (r: Result<DataUri, ImageError>)
    ensures v.NonString? ==> r == Err(FormatError)
    ensures r.Ok? ==> v.Str? && v.s == Render(r.value)
    ensures r.Ok? ==> IsFormat(r.value.format) && IsPayload(r.value.payload)
  {
    match v
    case NonString => Err(FormatError)
    case Str(s) =>
      if !(Prefix <= s) then Err(FormatError)
      else
        var rest := s[|Prefix|..];
        var r := ParseAfterPrefix(rest);
        assert r.Ok? ==> s == Render(r.value) by {
          if r.Ok? {
            var f, p := r.value.format, r.value.payload;
            assert s == Prefix + rest;
            AppendAssoc(Prefix + f, Marker, p);
            AppendAssoc(Prefix, f, Marker + p);
            AppendAssoc(f, Marker, p);
          }
        }
        r
  }

  lemma PayloadAccepted(format: string, p: string)
    requires IsPayload(p)
    ensures ParsePayload(format, p) == Ok(DataUri(format, p))
  {
    var k :| 0 <= k <= |p| && IsBase64Body(p[..k]) && IsPadding(p[k..]);
    assert Base64Run(p) == k by {
      if k < |p| {
        assert p[k..][0] == '=';
      }
    }
  }

  lemma AfterPrefixAccepted(format: string, p: string)
    requires IsFormat(format) && IsPayload(p)
    ensures ParseAfterPrefix(format + Marker + p) == Ok(DataUri(format, p))
  {
    var rest := format + Marker + p;
    var n := |format|;
    assert LowerRun(rest) == n by {
      assert rest[n] == ';';
    }
    assert rest[n..] == Marker + p;
    assert rest[n + |Marker|..] == p;
    assert rest[..n] == format;
    PayloadAccepted(format, p);
  }

  /** Every well-formed data URI is accepted, with exactly its format and payload. */
  lemma ParseAcceptsRender(d: DataUri)
    requires IsFormat(d.format) && IsPayload(d.payload)
    ensures Parse(Str(Render(d))) == Ok(d)
  {
    var rest := d.format + Marker + d.payload;
    assert Render(d) == Prefix + rest;
    assert Render(d)[|Prefix|..] == rest;
    AfterPrefixAccepted(d.format, d.payload);
  }

  /** Accepted exactly when the string has the form: both directions of the check. */
  lemma ParseIff(s: string)
    ensures Parse(Str(s)).Ok? <==>
      exists d: DataUri :: IsFormat(d.format) && IsPayload(d.payload) && s == Render(d)
  {
    if Parse(Str(s)).Ok? {
      var d := Parse(Str(s)).value;
      assert IsFormat(d.format) && IsPayload(d.payload) && s == Render(d);
    }
    if exists d: DataUri :: IsFormat(d.format) && IsPayload(d.payload) && s == Render(d) {
      var d: DataUri :| IsFormat(d.format) && IsPayload(d.payload) && s == Render(d);
      ParseAcceptsRender(d);
    }
  }
}
