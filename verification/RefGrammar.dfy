/**
 The grammar of public references (src/spl/public.py:9-12, 41-71, 89-99): the regular
 expressions as they are written, and the texts that are parsed.
 */
module RefGrammar {
  import opened Common
  import D = Decimal
  import P = PublicRef

  // --------------------------------------------------------------------- regular expressions

  /** Ranges of characters. */
  type Class = seq<(char, char)>

  /** One character, some number of characters, one expression after another, or an optional one. */
  datatype Regex =
    | One(chars: Class)
    | Many(chars: Class, low: nat, high: Option<nat>)
    | Then(first: Regex, second: Regex)
    | Maybe(body: Regex)

  predicate Holds(chars: Class, c: char) { exists k :: 0 <= k < |chars| && chars[k].0 <= c <= chars[k].1 }

  /** The whole text matches. */
  ghost predicate Matches(x: Regex, s: string) {
    match x
    case One(chars) => |s| == 1 && Holds(chars, s[0])
    case Many(chars, low, high) =>
      low <= |s| && (high.Some? ==> |s| <= high.value) && forall i | 0 <= i < |s| :: Holds(chars, s[i])
    case Then(first, second) => exists i :: 0 <= i <= |s| && Matches(first, s[..i]) && Matches(second, s[i..])
    case Maybe(body) => s == "" || Matches(body, s)
  }

  const LOWER: Class := [('a', 'z'), ('0', '9')]
  const HANDLE_CHARACTERS: Class := [('a', 'z'), ('0', '9'), ('.', '.'), ('_', '_'), ('-', '-')]
  const NAME_CHARACTERS: Class := [('A', 'Z'), ('a', 'z'), ('0', '9'), ('_', '_'), ('.', '.'), ('-', '-')]

  /** `[a-z0-9](?:[a-z0-9._-]{0,62}[a-z0-9])?` */
  const HANDLE := Then(One(LOWER), Maybe(Then(Many(HANDLE_CHARACTERS, 0, Some(62)), One(LOWER))))

  /** `[A-Za-z0-9_.-]+` */
  const NAME := Many(NAME_CHARACTERS, 1, None)

  /** `[1-9][0-9]*` */
  const VERSION := Then(One([('1', '9')]), Many([('0', '9')], 0, None))

  lemma ClassesMean(c: char)
    ensures Holds(LOWER, c) <==> P.IsLower(c)
    ensures Holds(HANDLE_CHARACTERS, c) <==> P.IsHandleChar(c)
    ensures Holds(NAME_CHARACTERS, c) <==> P.IsNameChar(c)
  {
    assert forall k | 0 <= k < |HANDLE_CHARACTERS| :: HANDLE_CHARACTERS[k] in HANDLE_CHARACTERS;
    assert LOWER[0] == ('a', 'z') && LOWER[1] == ('0', '9');
    var h, n := HANDLE_CHARACTERS, NAME_CHARACTERS;
    assert h[0].0 == 'a' && h[1].0 == '0' && h[2].0 == '.' && h[3].0 == '_' && h[4].0 == '-';
    assert n[0].0 == 'A' && n[1].0 == 'a' && n[2].0 == '0' && n[3].0 == '_' && n[4].0 == '.' && n[5].0 == '-';
  }

  lemma DigitsMean(c: char)
    ensures Holds([('0', '9')], c) <==> D.IsDigit(c)
    ensures Holds([('1', '9')], c) <==> D.IsDigit(c) && c != '0'
  {
    var all, some := [('0', '9')], [('1', '9')];
    assert all[0] == ('0', '9') && some[0] == ('1', '9');
  }

  /** One character comes first, whatever follows. */
  lemma FirstIsOne(chars: Class, rest: Regex, s: string)
    ensures Matches(Then(One(chars), rest), s) <==> s != "" && Holds(chars, s[0]) && Matches(rest, s[1..])
  {
    var x := Then(One(chars), rest);
    if Matches(x, s) {
      var i :| 0 <= i <= |s| && Matches(One(chars), s[..i]) && Matches(rest, s[i..]);
      assert i == 1;
    }
    if s != "" && Holds(chars, s[0]) && Matches(rest, s[1..]) {
      assert Matches(One(chars), s[..1]);
    }
  }

  /** Some characters and one more at the end. */
  lemma LastIsOne(chars: Class, high: nat, last: Class, s: string)
    ensures Matches(Then(Many(chars, 0, Some(high)), One(last)), s) <==>
      && 1 <= |s| <= high + 1 && (forall i | 0 <= i < |s| - 1 :: Holds(chars, s[i])) && Holds(last, s[|s| - 1])
  {
    var many, x := Many(chars, 0, Some(high)), Then(Many(chars, 0, Some(high)), One(last));
    if Matches(x, s) {
      var i :| 0 <= i <= |s| && Matches(many, s[..i]) && Matches(One(last), s[i..]);
      assert i == |s| - 1 && s[i..][0] == s[i];
      assert forall j | 0 <= j < i :: s[..i][j] == s[j];
    }
    if 1 <= |s| <= high + 1 && (forall i | 0 <= i < |s| - 1 :: Holds(chars, s[i])) && Holds(last, s[|s| - 1]) {
      var i := |s| - 1;
      assert Matches(many, s[..i]) && Matches(One(last), s[i..]);
    }
  }

  /** A handle is what its expression matches. */
  lemma HandleMeans(s: string)
    ensures P.IsHandle(s) <==> Matches(HANDLE, s)
  {
    hide Holds, P.IsLower, P.IsHandleChar;
    var inner := Then(Many(HANDLE_CHARACTERS, 0, Some(62)), One(LOWER));
    FirstIsOne(LOWER, Maybe(inner), s);
    forall c: char ensures Holds(LOWER, c) <==> P.IsLower(c)
      ensures Holds(HANDLE_CHARACTERS, c) <==> P.IsHandleChar(c)
    {
      ClassesMean(c);
    }
    forall c: char ensures P.IsLower(c) ==> P.IsHandleChar(c) { LowerIsHandle(c); }
    if s != "" {
      LastIsOne(HANDLE_CHARACTERS, 62, LOWER, s[1..]);
      assert forall i | 0 < i < |s| :: s[i] == s[1..][i - 1];
    }
  }

  lemma LowerIsHandle(c: char)
    ensures P.IsLower(c) ==> P.IsHandleChar(c)
  {
  }

  /** A name is what its expression matches, unless it has no character but the dot. */
  lemma NameMeans(s: string)
    ensures P.IsName(s) <==> Matches(NAME, s) && (set c | c in s) != {'.'}
  {
    hide Holds, P.IsNameChar;
    forall c: char ensures Holds(NAME_CHARACTERS, c) <==> P.IsNameChar(c) { ClassesMean(c); }
    if s != "" {
      var seen := set c | c in s;
      assert s[0] in s;
      if forall i | 0 <= i < |s| :: s[i] == '.' { assert seen == {'.'}; }
      if seen == {'.'} {
        forall i | 0 <= i < |s| ensures s[i] == '.' { assert s[i] in s && s[i] in seen; }
      }
    }
  }

  /** A version is written as its expression says. */
  lemma VersionMeans(s: string)
    ensures P.IsVersionText(s) <==> Matches(VERSION, s)
  {
    hide Holds, D.IsDigit;
    FirstIsOne([('1', '9')], Many([('0', '9')], 0, None), s);
    forall c: char ensures Holds([('0', '9')], c) <==> D.IsDigit(c)
      ensures Holds([('1', '9')], c) <==> D.IsDigit(c) && c != '0'
    {
      DigitsMean(c);
    }
    if s != "" { assert forall i | 0 < i < |s| :: s[i] == s[1..][i - 1]; }
  }

  // ------------------------------------------------------------------------- what is parsed

  /** The text of a reference, with or without a version. */
  function Written(owner: string, library: string, name: string, digits: Option<string>): string {
    "splime://@" + owner + "/" + library + "/" + name + if digits.Some? then "@" + digits.value else ""
  }

  /** The parts of a reference, each as its expression says; a version has few enough digits. */
  ghost predicate IsWritten(limit: Option<nat>, owner: string, library: string, name: string, digits: Option<string>) {
    && Matches(HANDLE, owner)
    && Matches(NAME, library) && (set c | c in library) != {'.'}
    && Matches(NAME, name) && (set c | c in name) != {'.'}
    && (digits.Some? ==> Matches(VERSION, digits.value) && (limit.Some? ==> |digits.value| <= limit.value))
  }

  /** A text is parsed exactly if it is written as the grammar says; then its parts are those written. */
  lemma ParsedExactly(limit: Option<nat>, value: string)
    ensures P.Parse(limit, value).Ok? <==> exists owner, library, name, digits ::
      IsWritten(limit, owner, library, name, digits) && value == Written(owner, library, name, digits)
    ensures forall owner, library, name, digits |
      IsWritten(limit, owner, library, name, digits) && value == Written(owner, library, name, digits) ::
        P.Parse(limit, value).Ok?
        && var r := P.Parse(limit, value).value;
          r.owner == owner && r.library == library && r.name == name && (r.version.Some? <==> digits.Some?)
          && (digits.Some? ==> D.AllDigits(digits.value) && r.version.value == D.Value(digits.value))
  {
    hide P.Parse, Matches, Written, IsWritten;
    forall owner, library, name, digits |
      IsWritten(limit, owner, library, name, digits) && value == Written(owner, library, name, digits)
      ensures P.Parse(limit, value).Ok?
        && var r := P.Parse(limit, value).value;
          r.owner == owner && r.library == library && r.name == name && (r.version.Some? <==> digits.Some?)
          && (digits.Some? ==> D.AllDigits(digits.value) && r.version.value == D.Value(digits.value))
    {
      WrittenParses(limit, owner, library, name, digits);
    }
    if P.Parse(limit, value).Ok? { var owner, library, name, digits := ParsedIsWritten(limit, value); }
  }

  lemma WrittenParses(limit: Option<nat>, owner: string, library: string, name: string, digits: Option<string>)
    requires IsWritten(limit, owner, library, name, digits)
    ensures digits.Some? ==> D.AllDigits(digits.value)
    ensures P.Parse(limit, Written(owner, library, name, digits)) ==
            Ok(P.Ref(owner, library, name, if digits.Some? then Some(D.Value(digits.value)) else None))
  {
    hide P.Parse, Matches, P.IsHandle, P.IsName;
    HandleMeans(owner);
    NameMeans(library);
    NameMeans(name);
    if digits.Some? {
      VersionMeans(digits.value);
      D.ValuePrints(digits.value);
      assert D.Print(D.Value(digits.value))[0] != '0';
    }
    var r := P.Ref(owner, library, name, if digits.Some? then Some(D.Value(digits.value)) else None);
    P.FormatThenParse(limit, r);
    assert P.TextOf(r) == Written(owner, library, name, digits);
  }

  lemma ParsedIsWritten(limit: Option<nat>, value: string)
    returns (owner: string, library: string, name: string, digits: Option<string>)
    requires P.Parse(limit, value).Ok?
    ensures IsWritten(limit, owner, library, name, digits) && value == Written(owner, library, name, digits)
  {
    hide P.Parse, Matches, P.IsHandle, P.IsName;
    var r := P.Parse(limit, value).value;
    P.ParseThenFormat(limit, value);
    P.FormatsWithinLimit(limit, r);
    owner, library, name := r.owner, r.library, r.name;
    digits := if r.version.Some? then Some(D.Print(r.version.value)) else None;
    HandleMeans(owner);
    NameMeans(library);
    NameMeans(name);
    if digits.Some? { VersionMeans(digits.value); }
    assert P.TextOf(r) == Written(owner, library, name, digits);
  }
}
