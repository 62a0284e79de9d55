/**
 * Shared vocabulary of the import model: an Option type usable with `:-`,
 * and the handful of Python string operations the importer relies on
 * (`str.strip`, `str.upper`, `str.lower`, `str.isdigit`, `str.isalnum`,
 * `str.split`/`str.join` on one character, `str(int)`), written out on
 * the characters up to U+00FF.
 */
module Common {

  datatype Option<+T> = None | Some(value: T) {
    predicate IsFailure() { None? }
    function PropagateFailure<U>(): Option<U> requires None? { None }
    function Extract(): T requires Some? { value }
  }

  /** The result of a step that either yields a value or raises with a message. */
  datatype Outcome<T> = Ok(value: T) | Fail(msg: string)

  /** A value of a record dictionary: text, the id of a linked record, or a boolean. */
  datatype Value = Text(s: string) | RecordId(id: nat) | Flag(b: bool)

  /** Python truthiness of a field value. */
  predicate Truthy(v: Value) {
    match v
    case Text(s) => s != ""
    case RecordId(id) => id != 0
    case Flag(b) => b
  }

  // ---------------------------------------------------------------------
  // Whitespace and strip()

  /** The characters for which Python's `str.isspace()` holds. They are what
      `str.strip()` removes and what the regular-expression class `\s`
      matches in a `str` pattern. */
  predicate IsSpace(c: char) {
    || c == ' '
    || '\t' <= c <= '\r'
    || '\U{1c}' <= c <= '\U{1f}'
    || c == '\U{85}' || c == '\U{a0}' || c == '\U{1680}'
    || '\U{2000}' <= c <= '\U{200a}'
    || c == '\U{2028}' || c == '\U{2029}' || c == '\U{202f}'
    || c == '\U{205f}' || c == '\U{3000}'
  }

  /** `s` with its leading whitespace removed. */
  function TrimLeft(s: string): (r: string)
    ensures |r| <= |s|
  {
    if s != [] && IsSpace(s[0]) then TrimLeft(s[1..]) else s
  }

  /** TrimLeft drops a whitespace prefix and stops at the first other character. */
  lemma {:induction false} TrimLeftShape(s: string)
    ensures var r := TrimLeft(s);
      && r == s[|s| - |r|..]
      && (r == [] || !IsSpace(r[0]))
      && forall i :: 0 <= i < |s| - |r| ==> IsSpace(s[i])
  {
    if s != [] && IsSpace(s[0]) {
      TrimLeftShape(s[1..]);
      var r := TrimLeft(s);
      forall i | 1 <= i < |s| - |r| ensures IsSpace(s[i]) {
        assert s[i] == s[1..][i - 1];
      }
    }
  }

  /** `s` with its trailing whitespace removed. */
  function TrimRight(s: string): (r: string)
    ensures |r| <= |s|
  {
    if s != [] && IsSpace(s[|s| - 1]) then TrimRight(s[..|s| - 1]) else s
  }

  /** TrimRight drops a whitespace suffix and stops at the last other character. */
  lemma {:induction false} TrimRightShape(s: string)
    ensures var r := TrimRight(s);
      && r == s[..|r|]
      && (r == [] || !IsSpace(r[|r| - 1]))
      && forall i :: |r| <= i < |s| ==> IsSpace(s[i])
  {
    if s != [] && IsSpace(s[|s| - 1]) {
      TrimRightShape(s[..|s| - 1]);
      var r := TrimRight(s);
      forall i | |r| <= i < |s| - 1 ensures IsSpace(s[i]) {
        assert s[i] == s[..|s| - 1][i];
      }
    }
  }

  /** Python's `s.strip()`. */
  function Strip(s: string): (r: string)
    ensures |r| <= |s|
  {
    TrimRight(TrimLeft(s))
  }

  /** What strip() returns neither starts nor ends with whitespace. */
  lemma StripShape(s: string)
    ensures var r := Strip(s); r == [] || (!IsSpace(r[0]) && !IsSpace(r[|r| - 1]))
  {
    var l := TrimLeft(s);
    var r := TrimRight(l);
    TrimLeftShape(s);
    TrimRightShape(l);
    if r != [] {
      assert r[0] == l[0];
    }
  }

  /** A string without surrounding whitespace is its own strip(). */
  lemma StripOfStripped(s: string)
    requires s == [] || (!IsSpace(s[0]) && !IsSpace(s[|s| - 1]))
    ensures Strip(s) == s
  {
  }

  /** strip() is idempotent. */
  lemma StripIdempotent(s: string)
    ensures Strip(Strip(s)) == Strip(s)
  {
    StripShape(s);
    StripOfStripped(Strip(s));
  }

  // ---------------------------------------------------------------------
  // Case mapping

  /** Python's `str.upper()` on one character, exact for U+0000..U+00FF. */
  function CharUpper(c: char): (r: string)
    ensures 1 <= |r| <= 2
  {
    if 'a' <= c <= 'z' || ('\U{e0}' <= c <= '\U{fe}' && c != '\U{f7}') then
      [(c as int - 32) as char]
    else if c == '\U{ff}' then "\U{178}"
    else if c == '\U{b5}' then "\U{39c}"
    else if c == '\U{df}' then "SS"
    else [c]
  }

  /** Python's `s.upper()`. */
  function Upper(s: string): string
  {
    if s == [] then [] else CharUpper(s[0]) + Upper(s[1..])
  }

  /** On characters whose upper case is one character, `Upper` works
      character by character. */
  lemma {:induction false} UpperIs(s: string, u: string)
    requires |s| == |u|
    requires forall i :: 0 <= i < |s| ==> CharUpper(s[i]) == [u[i]]
    ensures Upper(s) == u
  {
    if s != [] {
      UpperIs(s[1..], u[1..]);
      assert u == [u[0]] + u[1..];
    }
  }

  /** Python's `str.lower()` on one character, exact for U+0000..U+00FF. */
  function CharLower(c: char): char
  {
    if 'A' <= c <= 'Z' || ('\U{c0}' <= c <= '\U{de}' && c != '\U{d7}') then
      (c as int + 32) as char
    else c
  }

  /** Python's `s.lower()`. */
  function Lower(s: string): (r: string)
    ensures |r| == |s|
    ensures forall i :: 0 <= i < |s| ==> r[i] == CharLower(s[i])
  {
    if s == [] then [] else [CharLower(s[0])] + Lower(s[1..])
  }

  // ---------------------------------------------------------------------
  // Character classes

  /** ASCII decimal digit: what `\d` matches among U+0000..U+00FF. */
  predicate IsAsciiDigit(c: char) { '0' <= c <= '9' }

  function DigitValue(c: char): (v: int)
    requires IsAsciiDigit(c)
    ensures 0 <= v <= 9
  {
    c as int - '0' as int
  }

  function DigitChar(d: int): (c: char)
    requires 0 <= d <= 9
    ensures IsAsciiDigit(c) && DigitValue(c) == d
  {
    ('0' as int + d) as char
  }

  predicate IsAsciiLetter(c: char) { 'a' <= c <= 'z' || 'A' <= c <= 'Z' }

  /** Characters for which Python's `str.isdigit()` holds, among U+0000..U+00FF:
      the ASCII digits and the superscripts one, two and three. */
  predicate IsPyDigit(c: char) {
    IsAsciiDigit(c) || c == '\U{b2}' || c == '\U{b3}' || c == '\U{b9}'
  }

  /** Characters for which Python's `str.isalnum()` holds, among U+0000..U+00FF. */
  predicate IsPyAlnum(c: char) {
    || IsAsciiLetter(c) || IsPyDigit(c)
    || c == '\U{aa}' || c == '\U{b5}' || c == '\U{ba}'
    || '\U{bc}' <= c <= '\U{be}'
    || ('\U{c0}' <= c <= '\U{ff}' && c != '\U{d7}' && c != '\U{f7}')
  }

  /** Python's `s.isdigit()`: non-empty and every character a digit. */
  predicate PyIsDigit(s: string) {
    |s| > 0 && forall i :: 0 <= i < |s| ==> IsPyDigit(s[i])
  }

  /** Python's `s.isalnum()`: non-empty and every character alphanumeric. */
  predicate PyIsAlnum(s: string) {
    |s| > 0 && forall i :: 0 <= i < |s| ==> IsPyAlnum(s[i])
  }

  // ---------------------------------------------------------------------
  // Removing a character (`s.replace(c, '')`)

  /** Python's `s.replace(c, '')` for a single character `c`. */
  function RemoveChar(s: string, c: char): (r: string)
    ensures |r| <= |s|
    ensures c !in r
    ensures forall x :: x != c ==> multiset(r)[x] == multiset(s)[x]
  {
    if s == [] then []
    else
      assert s == [s[0]] + s[1..];
      if s[0] == c then RemoveChar(s[1..], c) else [s[0]] + RemoveChar(s[1..], c)
  }

  /** The characters of `s` outside `drop`, in order. */
  function Keep(s: string, drop: set<char>): (r: string)
    ensures |r| <= |s|
    ensures forall i :: 0 <= i < |r| ==> r[i] !in drop
  {
    if s == [] then []
    else if s[0] in drop then Keep(s[1..], drop)
    else [s[0]] + Keep(s[1..], drop)
  }

  lemma {:induction false} KeepAppend(a: string, b: string, drop: set<char>)
    ensures Keep(a + b, drop) == Keep(a, drop) + Keep(b, drop)
  {
    if a == [] {
      assert a + b == b;
    } else {
      assert (a + b)[1..] == a[1..] + b;
      KeepAppend(a[1..], b, drop);
    }
  }

  /** A dropped character between two strings disappears. */
  lemma KeepDrops(a: string, c: char, b: string, drop: set<char>)
    requires c in drop
    ensures Keep(a + [c] + b, drop) == Keep(a, drop) + Keep(b, drop)
  {
    KeepAppend(a + [c], b, drop);
    KeepAppend(a, [c], drop);
  }

  /** Removing one more character is filtering by one more element. */
  lemma {:induction false} RemoveCharOfKeep(s: string, drop: set<char>, c: char)
    ensures RemoveChar(Keep(s, drop), c) == Keep(s, drop + {c})
  {
    if s != [] {
      RemoveCharOfKeep(s[1..], drop, c);
    }
  }

  /** Filtering by nothing is the identity. */
  lemma {:induction false} KeepNothing(s: string)
    ensures Keep(s, {}) == s
  {
    if s != [] {
      KeepNothing(s[1..]);
    }
  }

  /** Filtering a string that has none of the dropped characters changes nothing. */
  lemma {:induction false} KeepClean(s: string, drop: set<char>)
    requires forall i :: 0 <= i < |s| ==> s[i] !in drop
    ensures Keep(s, drop) == s
  {
    if s != [] {
      KeepClean(s[1..], drop);
    }
  }

  // ---------------------------------------------------------------------
  // split / join on one character

  /** Python's `s.split(d)` for a one-character separator `d`. */
  function Split(s: string, d: char): (parts: seq<string>)
    ensures |parts| >= 1
    ensures forall i :: 0 <= i < |parts| ==> d !in parts[i]
    ensures |parts| == 1 <==> d !in s
  {
    if s == [] then [""]
    else
      var rest := Split(s[1..], d);
      if s[0] == d then [""] + rest
      else [[s[0]] + rest[0]] + rest[1..]
  }

  /** A string without the separator splits into itself. */
  lemma {:induction false} SplitNone(a: string, d: char)
    requires d !in a
    ensures Split(a, d) == [a]
  {
    if a != [] {
      SplitNone(a[1..], d);
      assert a == [a[0]] + a[1..];
    }
  }

  /** The first separator ends the first piece. */
  lemma {:induction false} SplitFirst(a: string, d: char, b: string)
    requires d !in a
    ensures Split(a + [d] + b, d) == [a] + Split(b, d)
  {
    var s := a + [d] + b;
    if a == [] {
      assert s == [d] + b;
      assert s[1..] == b;
    } else {
      assert s[1..] == a[1..] + [d] + b;
      SplitFirst(a[1..], d, b);
      assert a == [a[0]] + a[1..];
    }
  }

  /** Python's `d.join(parts)` for a one-character separator `d`. */
  function Join(parts: seq<string>, d: char): string
  {
    if |parts| == 0 then ""
    else if |parts| == 1 then parts[0]
    else parts[0] + [d] + Join(parts[1..], d)
  }

  /** Joining the pieces of a split gives back the string. */
  lemma {:induction false} JoinSplit(s: string, d: char)
    ensures Join(Split(s, d), d) == s
  {
    if s != [] {
      var rest := Split(s[1..], d);
      JoinSplit(s[1..], d);
      if s[0] != d {
        if |rest| > 1 {
          assert Join(rest, d) == rest[0] + [d] + Join(rest[1..], d);
        }
        assert s == [s[0]] + s[1..];
      }
    }
  }

  /** Joining all but the last piece, then the separator, then the last piece,
      is joining everything. */
  lemma {:induction false} JoinSnoc(parts: seq<string>, d: char)
    requires |parts| >= 2
    ensures Join(parts[..|parts| - 1], d) + [d] + parts[|parts| - 1] == Join(parts, d)
  {
    if |parts| > 2 {
      JoinSnoc(parts[1..], d);
      assert parts[1..][..|parts| - 2] == parts[..|parts| - 1][1..];
    }
  }

  // ---------------------------------------------------------------------
  // Numbers as text

  /** Python's `str(n)` for a natural number. */
  function NatToString(n: nat): (r: string)
    ensures |r| >= 1
    ensures forall i :: 0 <= i < |r| ==> IsAsciiDigit(r[i])
  {
    if n < 10 then [DigitChar(n)] else NatToString(n / 10) + [DigitChar(n % 10)]
  }

  /** The decimal value of a string of ASCII digits. */
  function DecimalValue(s: string): nat
    requires forall i :: 0 <= i < |s| ==> IsAsciiDigit(s[i])
  {
    if s == [] then 0 else 10 * DecimalValue(s[..|s| - 1]) + DigitValue(s[|s| - 1])
  }

  /** str(n) reads back as n. */
  lemma {:induction false} NatToStringValue(n: nat)
    ensures DecimalValue(NatToString(n)) == n
  {
    if n >= 10 {
      NatToStringValue(n / 10);
      var r := NatToString(n);
      assert r[..|r| - 1] == NatToString(n / 10);
    }
  }

  /** Different numbers have different decimal renderings. */
  lemma NatToStringInjective(m: nat, n: nat)
    requires NatToString(m) == NatToString(n)
    ensures m == n
  {
    NatToStringValue(m);
    NatToStringValue(n);
  }
}
