// Shared value types and the small string/sequence toolkit every page of the
// front end relies on: JavaScript scalar values, date fields, the
// case-insensitive name search, `Array.prototype.filter`, `String(n)`,
// `Number(s)`, `parseInt` and `join`.

module Common {

  datatype Option<T> = None | Some(value: T)

  /** A JSON scalar as the client receives or builds it (criteria entries, form fields). */
  datatype JsVal = JsNull | JsNum(n: int) | JsStr(s: string)

  /** A date field: the empty string, `null`, present but unparsable (an
      Invalid Date, whose comparisons are all false), or an instant in
      milliseconds. The server always sends the key, so `undefined` (which
      `moment` would read as the current time) does not occur. */
  datatype DateField = NoDate | NullDate | BadDate | At(ms: int)

  /** A "can vote" flag read from the server: a boolean, or missing. */
  datatype Flag = FlagTrue | FlagFalse | FlagMissing

  /** `x || d` for an optional text: the text when it is non-empty, the
      default otherwise (a missing or empty server `error`, a missing field). */
  function TextOr(x: Option<string>, d: string): (r: string)
    ensures x.Some? && x.value != "" ==> r == x.value
    ensures x.None? || x.value == "" ==> r == d
  {
    if x.Some? && x.value != "" then x.value else d
  }

  /** `x || []` for an optional list. */
  function OrEmpty<T>(x: Option<seq<T>>): (r: seq<T>)
    ensures x.Some? ==> r == x.value
    ensures x.None? ==> r == []
  {
    if x.Some? then x.value else []
  }

  /** JavaScript truthiness of the raw date: `''` and `null` are falsy. */
  predicate IsSet(d: DateField) { d.BadDate? || d.At? }

  /** `new Date(d).getTime()`: `null` is instant 0, and the empty string or an
      unparsable text an Invalid Date (`None`). `moment(d)` is invalid for
      both `''` and `null`, so it is valid exactly on `At`. */
  function NewDateMs(d: DateField): (r: Option<int>)
    ensures d.At? ==> r == Some(d.ms)
    ensures d.NullDate? ==> r == Some(0)
    ensures r.None? <==> d.NoDate? || d.BadDate?
  {
    match d
    case At(ms) => Some(ms)
    case NullDate => Some(0)
    case _ => None
  }

  // ---------------------------------------------------------------------
  // Case-insensitive search (`x.toLowerCase().includes(q.toLowerCase())`)
  // ---------------------------------------------------------------------

  /** `toLowerCase` on one character; only the ASCII letters are folded. */
  function Lower(c: char): (r: char)
    ensures 'A' <= c <= 'Z' ==> r as int == c as int + 32
    ensures !('A' <= c <= 'Z') ==> r == c
    ensures !('A' <= r <= 'Z')
  {
    if 'A' <= c <= 'Z' then (c as int + 32) as char else c
  }

  function LowerStr(s: string): (r: string)
    ensures |r| == |s|
    ensures forall i :: 0 <= i < |s| ==> r[i] == Lower(s[i])
  {
    if s == [] then [] else [Lower(s[0])] + LowerStr(s[1..])
  }

  /** Lower-casing twice is lower-casing once, so a search cannot tell a
      name from its lower-cased form. */
  lemma {:induction false} LowerStrIdempotent(s: string)
    ensures LowerStr(LowerStr(s)) == LowerStr(s)
  {
    var l := LowerStr(s);
    assert forall i :: 0 <= i < |l| ==> LowerStr(l)[i] == l[i];
  }

  predicate StartsWith(s: string, p: string) {
    |p| <= |s| && s[..|p|] == p
  }

  /** `String.prototype.includes`: `q` occurs somewhere in `s`. */
  predicate Contains(s: string, q: string)
    decreases |s|
  {
    StartsWith(s, q) || (|s| > 0 && Contains(s[1..], q))
  }

  /** `q` occurs in `s` starting at index `i`. */
  predicate OccursAt(s: string, q: string, i: int) {
    0 <= i && i + |q| <= |s| && s[i..i + |q|] == q
  }

  lemma {:induction false} ContainsAt(s: string, q: string, i: int)
    requires OccursAt(s, q, i)
    ensures Contains(s, q)
    decreases i
  {
    if i > 0 {
      assert s[1..][i - 1..i - 1 + |q|] == s[i..i + |q|];
      assert OccursAt(s[1..], q, i - 1);
      ContainsAt(s[1..], q, i - 1);
    }
  }

  lemma {:induction false} ContainsWitness(s: string, q: string) returns (i: int)
    requires Contains(s, q)
    ensures OccursAt(s, q, i)
    decreases |s|
  {
    if StartsWith(s, q) {
      i := 0;
    } else {
      var j := ContainsWitness(s[1..], q);
      assert s[1..][j..j + |q|] == s[j + 1..j + 1 + |q|];
      i := j + 1;
    }
  }

  /** `includes` holds exactly when `q` occurs at some index of `s`. */
  lemma ContainsIff(s: string, q: string)
    ensures Contains(s, q) <==> exists i :: OccursAt(s, q, i)
  {
    if Contains(s, q) {
      var i := ContainsWitness(s, q);
    }
    if exists i :: OccursAt(s, q, i) {
      var i :| OccursAt(s, q, i);
      ContainsAt(s, q, i);
    }
  }

  /** The search filter of every list page: `nom?.toLowerCase().includes(q.toLowerCase())`.
      An entity without a name never matches. */
  predicate NameMatches(name: Option<string>, query: string) {
    name.Some? && Contains(LowerStr(name.value), LowerStr(query))
  }

  /** The empty query keeps every named entity and still drops nameless ones. */
  lemma EmptyQueryMatchesNamed(name: Option<string>)
    ensures NameMatches(name, "") <==> name.Some?
  {
    if name.Some? {
      assert StartsWith(LowerStr(name.value), LowerStr(""));
    }
  }

  /** The search ignores letter case on both sides. */
  lemma NameMatchesIgnoresCase(name: string, query: string)
    ensures NameMatches(Some(name), query) <==> NameMatches(Some(LowerStr(name)), LowerStr(query))
  {
    LowerStrIdempotent(name);
    LowerStrIdempotent(query);
  }

  // ---------------------------------------------------------------------
  // `Array.prototype.filter`
  // ---------------------------------------------------------------------

  function Filter<T>(s: seq<T>, p: T -> bool): (r: seq<T>)
    ensures |r| <= |s|
    ensures forall i :: 0 <= i < |r| ==> r[i] in s && p(r[i])
    ensures forall i :: 0 <= i < |s| && p(s[i]) ==> s[i] in r
  {
    if s == [] then []
    else if p(s[0]) then [s[0]] + Filter(s[1..], p)
    else Filter(s[1..], p)
  }

  lemma {:induction false} FilterAppend<T>(a: seq<T>, b: seq<T>, p: T -> bool)
    ensures Filter(a + b, p) == Filter(a, p) + Filter(b, p)
  {
    if a != [] {
      assert (a + b)[0] == a[0];
      assert (a + b)[1..] == a[1..] + b;
      FilterAppend(a[1..], b, p);
    } else {
      assert a + b == b;
    }
  }

  /** Filtering twice does not depend on the order of the two filters; this is
      why a page that deletes from both its full list and its searched list
      keeps them consistent. */
  lemma {:induction false} FilterCommutes<T>(s: seq<T>, p: T -> bool, q: T -> bool)
    ensures Filter(Filter(s, p), q) == Filter(Filter(s, q), p)
  {
    if s != [] {
      FilterCommutes(s[1..], p, q);
    }
  }

  /** Two predicates that agree on every element filter alike. */
  lemma {:induction false} FilterSamePredicate<T>(s: seq<T>, p: T -> bool, q: T -> bool)
    requires forall i :: 0 <= i < |s| ==> p(s[i]) == q(s[i])
    ensures Filter(s, p) == Filter(s, q)
  {
    if s != [] {
      assert p(s[0]) == q(s[0]);
      forall i | 0 <= i < |s[1..]| ensures p(s[1..][i]) == q(s[1..][i]) {
        assert s[1..][i] == s[i + 1];
      }
      FilterSamePredicate(s[1..], p, q);
    }
  }

  /** The name search of a list page: the entities whose name contains the
      query, ignoring case, in list order. */
  function NameSearch<T>(xs: seq<T>, name: T -> Option<string>, query: string): (r: seq<T>)
    ensures forall i :: 0 <= i < |r| ==> r[i] in xs && NameMatches(name(r[i]), query)
    ensures forall i :: 0 <= i < |xs| && NameMatches(name(xs[i]), query) ==> xs[i] in r
  {
    Filter(xs, (x: T) => NameMatches(name(x), query))
  }

  /** The same search written `x.nom.toLowerCase()...` without a guard: the
      callback throws on an entity without a name, and the whole search
      fails (`None`) wherever that entity stands in the list. */
  function StrictNameSearch<T>(xs: seq<T>, name: T -> Option<string>, query: string): (r: Option<seq<T>>)
    ensures r.None? <==> exists i :: 0 <= i < |xs| && name(xs[i]).None?
    ensures r.Some? ==> r.value == NameSearch(xs, name, query)
  {
    if xs == [] then Some([])
    else if name(xs[0]).None? then None
    else
      match StrictNameSearch(xs[1..], name, query)
      case None =>
        assert exists i :: 0 <= i < |xs| && name(xs[i]).None? by {
          var k :| 0 <= k < |xs[1..]| && name(xs[1..][k]).None?;
          assert xs[k + 1] == xs[1..][k];
        }
        None
      case Some(rest) =>
        assert forall i :: 0 <= i < |xs| ==> name(xs[i]).Some? by {
          forall i | 0 <= i < |xs| ensures name(xs[i]).Some? {
            if i > 0 { assert xs[i] == xs[1..][i - 1]; }
          }
        }
        Some(if NameMatches(name(xs[0]), query) then [xs[0]] + rest else rest)
  }

  /** Counting the elements that satisfy a predicate (`filter(..).length`). */
  function CountWhere<T>(s: seq<T>, p: T -> bool): (n: nat)
    ensures n == |Filter(s, p)|
  {
    if s == [] then 0 else (if p(s[0]) then 1 else 0) + CountWhere(s[1..], p)
  }

  // ---------------------------------------------------------------------
  // Numbers rendered as text and parsed back
  // ---------------------------------------------------------------------

  predicate IsDigit(c: char) { '0' <= c <= '9' }

  function DigitChar(d: nat): (c: char)
    requires d < 10
    ensures IsDigit(c) && c as int - '0' as int == d
  {
    ('0' as int + d) as char
  }

  /** Decimal rendering of a natural number. */
  function Dec(n: nat): (r: string)
    ensures |r| >= 1
    ensures forall i :: 0 <= i < |r| ==> IsDigit(r[i])
    decreases n
  {
    if n < 10 then [DigitChar(n)] else Dec(n / 10) + [DigitChar(n % 10)]
  }

  /** Value of a string of digits, most significant first. */
  function DigitsValue(s: string): nat
    requires forall i :: 0 <= i < |s| ==> IsDigit(s[i])
  {
    if s == [] then 0
    else
      var last := s[|s| - 1];
      assert IsDigit(last);
      DigitsValue(s[..|s| - 1]) * 10 + (last as int - '0' as int)
  }

  /** A non-empty string of digits, read as a natural number. */
  function ParseDecimal(s: string): Option<nat> {
    if s != [] && forall i :: 0 <= i < |s| ==> IsDigit(s[i]) then Some(DigitsValue(s)) else None
  }

  lemma {:induction false} DigitsValueOfDec(n: nat)
    ensures DigitsValue(Dec(n)) == n
    decreases n
  {
    if n >= 10 {
      var d := Dec(n);
      assert d[..|d| - 1] == Dec(n / 10);
      DigitsValueOfDec(n / 10);
    }
  }

  /** Rendering then parsing gives the number back. */
  lemma DecRoundTrip(n: nat)
    ensures ParseDecimal(Dec(n)) == Some(n)
  {
    DigitsValueOfDec(n);
  }

  /** Two numbers with the same rendering are equal. */
  lemma DecInjective(a: nat, b: nat)
    ensures Dec(a) == Dec(b) ==> a == b
  {
    DecRoundTrip(a);
    DecRoundTrip(b);
  }

  /** `String(n)` for an integer. */
  function JsString(n: int): (r: string)
    ensures |r| >= 1
  {
    if n < 0 then "-" + Dec(-n) else Dec(n)
  }

  /** `Number(s)` on the strings the forms produce: the empty string is 0, an
      optional minus sign followed by digits is that integer, anything else is
      NaN (`None`). */
  function JsNumber(s: string): Option<int> {
    if s == [] then Some(0)
    else if s[0] == '-' then
      (match ParseDecimal(s[1..]) case Some(v) => Some(-(v as int)) case None => None)
    else
      (match ParseDecimal(s) case Some(v) => Some(v) case None => None)
  }

  /** `Number(String(n)) === n`. */
  lemma JsNumberOfJsString(n: int)
    ensures JsNumber(JsString(n)) == Some(n)
  {
    var s := JsString(n);
    if n < 0 {
      var d := Dec(-n);
      assert s == "-" + d;
      assert s[0] == '-' && s[1..] == d;
      DecRoundTrip(-n);
    } else {
      var d := Dec(n);
      assert s == d;
      DecRoundTrip(n);
      assert s[0] != '-' by { assert IsDigit(d[0]); }
    }
  }

  /** `String` is injective on integers: distinct classes never share a key. */
  lemma JsStringInjective(a: int, b: int)
    ensures JsString(a) == JsString(b) ==> a == b
  {
    JsNumberOfJsString(a);
    JsNumberOfJsString(b);
  }

  /** `String(v)` for a criteria entry that is a number or a string. */
  function JsValToString(v: JsVal): string {
    match v
    case JsNull => "null"
    case JsNum(n) => JsString(n)
    case JsStr(s) => s
  }

  /** The longest run of leading digits of `s`. */
  function DigitPrefix(s: string): (r: string)
    ensures |r| <= |s| && r == s[..|r|]
    ensures forall i :: 0 <= i < |r| ==> IsDigit(r[i])
    ensures |r| < |s| ==> !IsDigit(s[|r|])
  {
    if s != [] && IsDigit(s[0]) then [s[0]] + DigitPrefix(s[1..]) else []
  }

  /** `parseInt(v)`: a number is kept, a string is read up to its first
      non-digit, and a string without leading digits or `null` is NaN (`None`). */
  function JsParseInt(v: JsVal): (r: Option<int>)
    ensures v.JsNum? ==> r == Some(v.n)
    ensures v.JsNull? ==> r == None
  {
    match v
    case JsNull => None
    case JsNum(n) => Some(n)
    case JsStr(s) =>
      var p := DigitPrefix(s);
      if p == [] then None else Some(DigitsValue(p))
  }

  lemma ParseIntOfDec(n: nat)
    ensures JsParseInt(JsStr(Dec(n))) == Some(n)
  {
    var d := Dec(n);
    assert DigitPrefix(d) == d by {
      DigitPrefixOfDigits(d);
    }
    DigitsValueOfDec(n);
  }

  lemma {:induction false} DigitPrefixOfDigits(s: string)
    requires forall i :: 0 <= i < |s| ==> IsDigit(s[i])
    ensures DigitPrefix(s) == s
  {
    if s != [] {
      DigitPrefixOfDigits(s[1..]);
    }
  }

  // ---------------------------------------------------------------------
  // Submit errors
  // ---------------------------------------------------------------------

  /** Why a request failed: no response at all, or an HTTP error with the
      status and, when the body is not empty, its JSON text. */
  datatype Failure = NoResponse | HttpError(status: int, data: Option<string>)

  /** The catch block of the admin forms: 403 gives the page's "not allowed"
      text, a body gives `Erreur: <body>`, anything else the generic text. */
  function SubmitErrorMessage(f: Failure, generic: string, forbidden: string): (r: string)
    ensures f.HttpError? && f.status == 403 ==> r == forbidden
    ensures f.HttpError? && f.status != 403 && f.data.Some? ==> r == "Erreur: " + f.data.value
    ensures f.NoResponse? || (f.status != 403 && f.data.None?) ==> r == generic
  {
    if f.HttpError? && f.status == 403 then forbidden
    else if f.HttpError? && f.data.Some? then "Erreur: " + f.data.value
    else generic
  }

  /** `Array.prototype.join(sep)`. */
  function Join(xs: seq<string>, sep: string): (r: string)
    ensures xs == [] ==> r == ""
    ensures |xs| == 1 ==> r == xs[0]
  {
    if xs == [] then "" else if |xs| == 1 then xs[0] else xs[0] + sep + Join(xs[1..], sep)
  }

  /** The characters `String.prototype.trim()` removes: the white space
      (tab, vertical tab, form feed, space, no-break space, the byte order
      mark and the other space separators) and the line terminators. */
  predicate IsSpace(c: char) {
    || c == '\t' || c == '\U{000B}' || c == '\U{000C}' || c == ' ' || c == '\U{00A0}' || c == '\U{FEFF}'
    || c == '\U{1680}' || ('\U{2000}' <= c <= '\U{200A}') || c == '\U{202F}' || c == '\U{205F}' || c == '\U{3000}'
    || c == '\n' || c == '\r' || c == '\U{2028}' || c == '\U{2029}'
  }

  predicate IsBlank(s: string) {
    forall i :: 0 <= i < |s| ==> IsSpace(s[i])
  }
}
