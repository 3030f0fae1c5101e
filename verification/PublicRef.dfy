/**
 Public references `splime://@owner/library/name[@version]` (src/spl/public.py:9-99).
 `limit` is the interpreter's bound on the digits that `int` reads and `str` writes.
 */
module PublicRef {
  import opened Common
  import T = Text
  import D = Decimal

  const SCHEME := "splime://"

  datatype Ref = Ref(owner: string, library: string, name: string, version: Option<nat>)

  // -------------------------------------------------------------------------- grammar

  predicate IsLower(c: char) { 'a' <= c <= 'z' || '0' <= c <= '9' }

  predicate IsHandleChar(c: char) { IsLower(c) || c == '.' || c == '_' || c == '-' }

  predicate IsNameChar(c: char) { IsHandleChar(c) || 'A' <= c <= 'Z' }

  /** `[a-z0-9](?:[a-z0-9._-]{0,62}[a-z0-9])?` */
  predicate IsHandle(s: string) {
    1 <= |s| <= 64 && IsLower(s[0]) && IsLower(s[|s| - 1]) && forall i | 0 <= i < |s| :: IsHandleChar(s[i])
  }

  /** `[A-Za-z0-9_.-]+`, and not dots alone. */
  predicate IsName(s: string) {
    s != "" && (forall i | 0 <= i < |s| :: IsNameChar(s[i])) && exists i :: 0 <= i < |s| && s[i] != '.'
  }

  predicate IsVersionText(s: string) { s != "" && D.AllDigits(s) && s[0] != '0' }

  predicate Fits(limit: Option<nat>, digits: string) { limit.Some? ==> |digits| <= limit.value }

  /** What the constructor of a reference admits. */
  predicate IsRef(r: Ref) {
    IsHandle(r.owner) && IsName(r.library) && IsName(r.name) && (r.version.Some? ==> r.version.value >= 1)
  }

  /** The version has no more digits than the interpreter handles. */
  predicate WithinLimit(limit: Option<nat>, r: Ref) { r.version.Some? ==> Fits(limit, D.Print(r.version.value)) }

  // ------------------------------------------------------------- parsing and formatting

  function ParseName(limit: Option<nat>, raw: string): Result<(string, Option<nat>)> {
    if '@' !in raw then Ok((raw, None))
    else
      var parts := T.Split(raw, '@');
      if |parts| != 2 || !IsVersionText(parts[1]) then Err("version")
      else if !Fits(limit, parts[1]) then Err("digits")
      else Ok((parts[0], Some(D.Value(parts[1]))))
  }

  function Parse(limit: Option<nat>, value: string): Result<Ref> {
    if exists c | c in value :: c in "?#%\\" then Err("encoded")
    else if !(SCHEME <= value) then Err("scheme")
    else
      var segments := T.Split(value[|SCHEME|..], '/');
      if |segments| != 3 then Err("segments")
      else
        var owners := T.Split(segments[0], '@');
        if |owners| != 2 || owners[0] != "" || !IsHandle(owners[1]) then Err("owner")
        else if !IsName(segments[1]) then Err("library")
        else
          match ParseName(limit, segments[2])
          case Err(code) => Err(code)
          case Ok((name, version)) => if IsName(name) then Ok(Ref(owners[1], segments[1], name, version))
          else Err("object")
  }

  function Suffix(version: Option<nat>): string {
    match version
    case None => ""
    case Some(v) => "@" + D.Print(v)
  }

  function TextOf(r: Ref): string { SCHEME + "@" + r.owner + "/" + r.library + "/" + r.name + Suffix(r.version) }

  /** The text of a reference, checked by parsing it again. */
  function Format(limit: Option<nat>, r: Ref): Result<string> {
    if !WithinLimit(limit, r) then Err("digits")
    else if Parse(limit, TextOf(r)) == Ok(r) then Ok(TextOf(r))
    else Err("non-canonical")
  }

  // ------------------------------------------------------------------ the two inverses

  lemma NameHasNoMarks(s: string)
    requires forall i | 0 <= i < |s| :: IsNameChar(s[i])
    ensures '@' !in s && '/' !in s && forall c | c in s :: c !in "?#%\\"
  {
  }

  lemma DigitsHaveNoMarks(s: string)
    requires D.AllDigits(s)
    ensures '@' !in s && '/' !in s && forall c | c in s :: c !in "?#%\\"
  {
  }

  lemma HandleIsNameLike(s: string)
    requires IsHandle(s)
    ensures forall i | 0 <= i < |s| :: IsNameChar(s[i])
  {
  }

  lemma SplitTwo(x: string, y: string, c: char)
    requires c !in x && c !in y
    ensures T.Split(x + [c] + y, c) == [x, y]
  {
    T.SplitFirst(x, c, y);
    T.SplitNone(y, c);
  }

  lemma NameParses(limit: Option<nat>, r: Ref)
    requires IsRef(r) && WithinLimit(limit, r)
    ensures ParseName(limit, r.name + Suffix(r.version)) == Ok((r.name, r.version))
    ensures '/' !in r.name + Suffix(r.version) && forall c | c in r.name + Suffix(r.version) :: c !in "?#%\\"
  {
    NameHasNoMarks(r.name);
    if r.version.Some? {
      var digits := D.Print(r.version.value);
      DigitsHaveNoMarks(digits);
      SplitTwo(r.name, digits, '@');
      assert r.name + Suffix(r.version) == r.name + ['@'] + digits;
      assert (r.name + ['@'] + digits)[|r.name|] == '@';
    } else {
      assert r.name + "" == r.name;
    }
  }

  lemma SplitThree(x: string, y: string, z: string, c: char)
    requires c !in x && c !in y && c !in z
    ensures T.Split(x + [c] + (y + [c] + z), c) == [x, y, z]
  {
    T.SplitFirst(x, c, y + [c] + z);
    SplitTwo(y, z, c);
  }

  lemma TextShape(r: Ref)
    ensures TextOf(r)[|SCHEME|..] == "@" + r.owner + ['/'] + (r.library + ['/'] + (r.name + Suffix(r.version)))
    ensures TextOf(r) == SCHEME + TextOf(r)[|SCHEME|..]
  {
  }

  lemma TextHasNoMarkers(limit: Option<nat>, r: Ref)
    requires IsRef(r) && WithinLimit(limit, r)
    ensures forall c | c in TextOf(r) :: c !in "?#%\\"
  {
    HandleIsNameLike(r.owner);
    NameHasNoMarks(r.owner);
    NameHasNoMarks(r.library);
    NameParses(limit, r);
    TextShape(r);
    forall c | c in TextOf(r) ensures c !in "?#%\\" {
      assert c in SCHEME || c in "@" || c in r.owner || c in "/" || c in r.library || c in r.name + Suffix(r.version);
    }
  }

  /** Formatting a reference and parsing the text gives back the reference. */
  lemma FormatThenParse(limit: Option<nat>, r: Ref)
    requires IsRef(r) && WithinLimit(limit, r)
    ensures Format(limit, r) == Ok(TextOf(r)) && Parse(limit, TextOf(r)) == Ok(r)
  {
    HandleIsNameLike(r.owner);
    NameHasNoMarks(r.owner);
    NameHasNoMarks(r.library);
    NameParses(limit, r);
    TextHasNoMarkers(limit, r);
    TextShape(r);
    hide ParseName, IsHandle, IsName, TextOf, Suffix;
    assert "@" + r.owner == "" + ['@'] + r.owner;
    SplitTwo("", r.owner, '@');
    SplitThree("@" + r.owner, r.library, r.name + Suffix(r.version), '/');
  }

  lemma JoinTwo(s: string, c: char, parts: seq<string>)
    requires parts == T.Split(s, c) && |parts| == 2
    ensures s == parts[0] + [c] + parts[1]
  {
    T.JoinSplit(s, c);
    assert parts[1..] == [parts[1]];
  }

  lemma JoinThree(s: string, c: char, parts: seq<string>)
    requires parts == T.Split(s, c) && |parts| == 3
    ensures s == parts[0] + [c] + (parts[1] + [c] + parts[2])
  {
    T.JoinSplit(s, c);
    var rest := parts[1..];
    assert rest == [parts[1], parts[2]] && rest[1..] == [parts[2]];
    assert T.Join(rest, c) == parts[1] + [c] + T.Join([parts[2]], c);
  }

  lemma ParsedName(limit: Option<nat>, raw: string)
    requires ParseName(limit, raw).Ok?
    ensures var (name, version) := ParseName(limit, raw).value; raw == name + Suffix(version)
    ensures var (name, version) := ParseName(limit, raw).value; version.Some? ==> version.value >= 1
    ensures var (name, version) := ParseName(limit, raw).value; version.Some? ==> Fits(limit, D.Print(version.value))
  {
    if '@' in raw {
      var parts := T.Split(raw, '@');
      JoinTwo(raw, '@', parts);
      D.ValuePrints(parts[1]);
      assert D.Print(D.Value(parts[1]))[0] != '0';
      assert raw == parts[0] + ("@" + parts[1]);
    } else {
      assert raw == raw + "";
    }
  }

  /** Parsing a text and formatting the reference gives back the text. */
  lemma ParseThenFormat(limit: Option<nat>, value: string)
    requires Parse(limit, value).Ok?
    ensures IsRef(Parse(limit, value).value) && Format(limit, Parse(limit, value).value) == Ok(value)
  {
    var rest := value[|SCHEME|..];
    var segments := T.Split(rest, '/');
    var owners := T.Split(segments[0], '@');
    JoinThree(rest, '/', segments);
    JoinTwo(segments[0], '@', owners);
    ParsedName(limit, segments[2]);
    var r := Parse(limit, value).value;
    assert value == SCHEME + rest;
    TextShape(r);
    assert TextOf(r) == value;
  }

  /** A reference can be written down exactly if its version has few enough digits. */
  lemma FormatsWithinLimit(limit: Option<nat>, r: Ref)
    requires IsRef(r)
    ensures Format(limit, r).Ok? <==> WithinLimit(limit, r)
  {
    if WithinLimit(limit, r) { FormatThenParse(limit, r); }
  }

  /** No two texts stand for one reference, and no two references have one text. */
  lemma OneTextPerReference(limit: Option<nat>, x: string, y: string, r: Ref, q: Ref)
    requires Parse(limit, x).Ok? && Parse(limit, y).Ok? && IsRef(r) && IsRef(q) && WithinLimit(limit, r)
    requires WithinLimit(limit, q)
    ensures Parse(limit, x) == Parse(limit, y) ==> x == y
    ensures TextOf(r) == TextOf(q) ==> r == q
  {
    ParseThenFormat(limit, x);
    ParseThenFormat(limit, y);
    FormatThenParse(limit, r);
    FormatThenParse(limit, q);
  }

  /** With a bound on digits, some valid references cannot be written down. */
  lemma LongVersionIsRefused(n: nat, owner: string, library: string, name: string)
    requires n >= 1 && IsHandle(owner) && IsName(library) && IsName(name)
    ensures var r := Ref(owner, library, name, Some(D.Power10(n)));
      IsRef(r) && Format(Some(n), r) == Err("digits") && Format(None, r) == Ok(TextOf(r))
  {
    var r := Ref(owner, library, name, Some(D.Power10(n)));
    PowerDigits(n);
    FormatThenParse(None, r);
  }

  lemma {:induction false} PowerDigits(n: nat)
    ensures D.Power10(n) >= 1 && |D.Print(D.Power10(n))| == n + 1
  {
    if n > 0 { PowerDigits(n - 1); D.PrintAppends(D.Power10(n - 1), 0); }
  }
}
