/**
 * The importer's value normalisers: phone cleanup, VAT acceptance, postal
 * code and e-mail checks, the project-code suffix strip of the activity
 * import, the fixed lookup tables for stages and testing status, the tag
 * command list and the helpdesk description wrapper (dbm/wizard/wizard.py).
 */
module Normalise {
  import opened Common

  // ---------------------------------------------------------------------
  // Phone numbers (wizard.py:542)

  const PhonePunctuation: set<char> := {' ', '-', '/', '(', ')'}

  /** The chain `.replace(' ', '').replace('-', '').replace('/', '')
      .replace('(', '').replace(')', '')`. */
  function CleanPhone(v: string): string {
    RemoveChar(RemoveChar(RemoveChar(RemoveChar(RemoveChar(v, ' '), '-'), '/'), '('), ')')
  }

  /** The chain removes exactly the five punctuation characters and keeps
      every other character, in order. */
  lemma CleanPhoneKeeps(v: string)
    ensures CleanPhone(v) == Keep(v, PhonePunctuation)
  {
    var k0: set<char> := {};
    KeepNothing(v);
    RemoveCharOfKeep(v, k0, ' ');
    var k1 := k0 + {' '};
    RemoveCharOfKeep(v, k1, '-');
    var k2 := k1 + {'-'};
    RemoveCharOfKeep(v, k2, '/');
    var k3 := k2 + {'/'};
    RemoveCharOfKeep(v, k3, '(');
    var k4 := k3 + {'('};
    RemoveCharOfKeep(v, k4, ')');
    assert k4 + {')'} == PhonePunctuation;
  }

  /** No punctuation is left and every other character keeps its count. */
  lemma CleanPhoneContents(v: string)
    ensures forall i :: 0 <= i < |CleanPhone(v)| ==> CleanPhone(v)[i] !in PhonePunctuation
    ensures forall x :: x !in PhonePunctuation ==> multiset(CleanPhone(v))[x] == multiset(v)[x]
  {
    CleanPhoneKeeps(v);
  }

  /** Cleaning twice is cleaning once. */
  lemma CleanPhoneIdempotent(v: string)
    ensures CleanPhone(CleanPhone(v)) == CleanPhone(v)
  {
    CleanPhoneKeeps(v);
    CleanPhoneKeeps(CleanPhone(v));
    KeepClean(CleanPhone(v), PhonePunctuation);
  }

  // ---------------------------------------------------------------------
  // VAT numbers (wizard.py:587-592 and 1332-1337)

  const VatPunctuation: set<char> := {' ', '.', '-'}

  /** `vat.replace(' ', '').replace('.', '').replace('-', '')`. */
  function VatCore(v: string): string {
    RemoveChar(RemoveChar(RemoveChar(v, ' '), '.'), '-')
  }

  /** The chain removes exactly blanks, dots and dashes. */
  lemma VatCoreKeeps(v: string)
    ensures VatCore(v) == Keep(v, VatPunctuation)
  {
    var k0: set<char> := {};
    KeepNothing(v);
    RemoveCharOfKeep(v, k0, ' ');
    var k1 := k0 + {' '};
    RemoveCharOfKeep(v, k1, '.');
    var k2 := k1 + {'.'};
    RemoveCharOfKeep(v, k2, '-');
    assert k2 + {'-'} == VatPunctuation;
  }

  /** The opposite of `not vat.isalnum() or len(vat) < 8`. */
  predicate VatAccepted(v: string) {
    PyIsAlnum(VatCore(v)) && |VatCore(v)| >= 8
  }

  /** The VAT rule on a prepared record: a non-empty `vat` that fails the
      check is deleted; everything else, including an accepted `vat` in its
      original unstripped form, is left as it was. */
  function ValidateVat<K(!new)>(data: map<K, Value>, vat: K): (r: map<K, Value>)
    ensures forall k :: k != vat ==> (k in r <==> k in data) && (k in r ==> r[k] == data[k])
    ensures vat in r ==> vat in data && r[vat] == data[vat]
    ensures vat in data && data[vat].Text? && data[vat].s != "" ==> (vat in r <==> VatAccepted(data[vat].s))
    ensures vat in data && !Truthy(data[vat]) ==> vat in r
  {
    if vat in data && data[vat].Text? && data[vat].s != "" && !VatAccepted(data[vat].s) then
      data - {vat}
    else data
  }

  /** Blanks, dots and dashes anywhere in the number do not change the
      verdict. */
  lemma VatPunctuationIgnored(a: string, c: char, b: string)
    requires c in VatPunctuation
    ensures VatAccepted(a + [c] + b) <==> VatAccepted(a + b)
  {
    VatCoreKeeps(a + [c] + b);
    VatCoreKeeps(a + b);
    KeepDrops(a, c, b, VatPunctuation);
    KeepAppend(a, b, VatPunctuation);
  }

  /** Any other separator makes the number fail: "IT1234/5678" is deleted. */
  lemma VatSlashRejected(v: string)
    requires v == "IT1234/5678"
    ensures !VatAccepted(v)
  {
    VatCoreKeeps(v);
    KeepClean(v, VatPunctuation);
    assert !IsPyAlnum(v[6]);
  }

  /** Seven characters are too few. */
  lemma VatTooShort(v: string)
    requires v == "123-4567"
    ensures !VatAccepted(v)
  {
    VatCoreKeeps(v);
    assert v == "123" + ['-'] + "4567";
    KeepDrops("123", '-', "4567", VatPunctuation);
  }

  // ---------------------------------------------------------------------
  // Postal code (wizard.py:1259-1262)

  /** `value.isdigit() and len(value) == 5`. */
  predicate ZipAccepted(v: string) {
    PyIsDigit(v) && |v| == 5
  }

  /** An accepted postal code has no surrounding whitespace and no dash,
      so storing the stripped cell stores the code as read. */
  lemma ZipAcceptedShape(v: string)
    requires ZipAccepted(v)
    ensures Strip(v) == v && '-' !in v && ' ' !in v
  {
    assert !IsSpace(v[0]) && !IsSpace(v[4]);
    StripOfStripped(v);
  }

  /** Python's isdigit() also holds for superscript digits, so "1²345"
      passes; four or six digits, a letter or an inner space fail. */
  lemma ZipExamples()
    ensures ZipAccepted("20121") && ZipAccepted("1\U{b2}345")
    ensures !ZipAccepted("2012") && !ZipAccepted("201210") && !ZipAccepted("I2012") && !ZipAccepted("20 12")
  {
    assert !IsPyDigit("I2012"[0]) && !IsPyDigit("20 12"[2]);
  }

  // ---------------------------------------------------------------------
  // E-mail (wizard.py:1323-1329; the same pattern at 534)

  predicate LocalChar(c: char) {
    IsAsciiLetter(c) || IsAsciiDigit(c) || c == '.' || c == '_' || c == '%' || c == '+' || c == '-'
  }

  predicate DomainChar(c: char) {
    IsAsciiLetter(c) || IsAsciiDigit(c) || c == '.' || c == '-'
  }

  /** The string is `[a-zA-Z0-9._%+-]+@[a-zA-Z0-9.-]+\.[a-zA-Z]{2,}`, with
      the `@` at `at` and the final dot at `dot`. */
  predicate EmailSplitAt(s: string, at: int, dot: int) {
    && 1 <= at && at + 2 <= dot && dot + 3 <= |s|
    && (forall i :: 0 <= i < at ==> LocalChar(s[i]))
    && s[at] == '@'
    && (forall i :: at < i < dot ==> DomainChar(s[i]))
    && s[dot] == '.'
    && (forall i :: dot < i < |s| ==> IsAsciiLetter(s[i]))
  }

  predicate EmailShape(s: string) {
    exists at, dot | 0 <= at < |s| && 0 <= dot < |s| :: EmailSplitAt(s, at, dot)
  }

  /** `re.match('^...$', s)`: `$` also matches before one final newline. */
  predicate EmailAccepted(s: string) {
    EmailShape(s) || (|s| > 0 && s[|s| - 1] == '\n' && EmailShape(s[..|s| - 1]))
  }

  /** An address the pattern accepts has exactly one `@`, the one the
      pattern puts between the local part and the domain. */
  lemma EmailSingleAt(s: string, at: int, dot: int)
    requires EmailSplitAt(s, at, dot)
    ensures forall i :: 0 <= i < |s| && s[i] == '@' ==> i == at
  {
  }

  /** The e-mail rule on a prepared record: a non-empty `email` that does
      not match is deleted; nothing else changes. */
  function ValidateEmail<K(!new)>(data: map<K, Value>, email: K): (r: map<K, Value>)
    ensures forall k :: k != email ==> (k in r <==> k in data) && (k in r ==> r[k] == data[k])
    ensures email in r ==> email in data && r[email] == data[email]
    ensures email in data && data[email].Text? && data[email].s != "" ==>
              (email in r <==> EmailAccepted(data[email].s))
  {
    if email in data && data[email].Text? && data[email].s != "" && !EmailAccepted(data[email].s) then
      data - {email}
    else data
  }

  lemma EmailExamples()
    ensures EmailAccepted("info@dbm.it")
    ensures !EmailAccepted("info@dbm")
    ensures !EmailAccepted("a@b.c")
  {
    assert EmailSplitAt("info@dbm.it", 4, 8);
    assert "info@dbm"[|"info@dbm"| - 1] != '\n';
    assert "a@b.c"[|"a@b.c"| - 1] != '\n';
    assert forall i :: 0 <= i < 8 ==> "info@dbm"[i] != '.';
  }

  // ---------------------------------------------------------------------
  // Project code of an activity row (wizard.py:1958-1968)

  /** Everything before the last `-`, as `'-'.join(value.split('-')[:-1])`;
      a value without `-` is kept. */
  function StripProjectSuffix(v: string): string {
    if '-' in v then
      var parts := Split(v, '-');
      if |parts| > 1 then Join(parts[..|parts| - 1], '-') else v
    else v
  }

  /** The stripped code, a dash and a dash-free last part give back the value. */
  lemma StripProjectSuffixSpec(v: string)
    ensures '-' !in v ==> StripProjectSuffix(v) == v
    ensures '-' in v ==>
      var last := Split(v, '-')[|Split(v, '-')| - 1];
      && '-' !in last
      && StripProjectSuffix(v) + "-" + last == v
  {
    if '-' in v {
      var parts := Split(v, '-');
      assert |parts| > 1;
      assert StripProjectSuffix(v) == Join(parts[..|parts| - 1], '-');
      assert '-' !in parts[|parts| - 1];
      JoinSplit(v, '-');
      JoinSnoc(parts, '-');
      assert "-" == ['-'];
    }
  }

  /** "P-7-24" loses its year suffix and keeps its inner dash. */
  lemma StripProjectSuffixExample(v: string)
    requires v == "P-7-24"
    ensures StripProjectSuffix(v) == "P-7"
  {
    assert v == "P" + ['-'] + "7" + ['-'] + "24";
    SplitThree("P", "7", "24");
    assert v[1] == '-';
    var parts: seq<string> := ["P", "7", "24"];
    var kept: seq<string> := ["P", "7"];
    assert parts[..|parts| - 1] == kept;
    assert kept[1..] == ["7"];
    assert Join(kept, '-') == "P" + ['-'] + "7";
  }

  /** Three dash-free parts joined by dashes split back into those parts. */
  lemma SplitThree(a: string, b: string, c: string)
    requires '-' !in a && '-' !in b && '-' !in c
    ensures Split(a + ['-'] + b + ['-'] + c, '-') == [a, b, c]
  {
    SplitNone(c, '-');
    SplitFirst(b, '-', c);
    assert a + ['-'] + b + ['-'] + c == a + ['-'] + (b + ['-'] + c);
    SplitFirst(a, '-', b + ['-'] + c);
  }

  // ---------------------------------------------------------------------
  // Lookup tables

  /** Testing status of a stock lot (wizard.py:1053-1062). */
  const TestingStatusMap: map<string, string> := map[
    "collaudato" := "tested", "tested" := "tested",
    "in attesa" := "pending", "pending" := "pending",
    "non collaudato" := "not_tested", "not tested" := "not_tested"]

  /** `status_mapping.get(value.strip().lower(), 'not_tested')`. The result
      is always one of the three values of the lot's selection field. */
  function TestingStatus(v: string): (r: string)
    ensures r in {"tested", "pending", "not_tested"}
  {
    var key := Lower(Strip(v));
    if key in TestingStatusMap then TestingStatusMap[key] else "not_tested"
  }

  lemma LowerKeepsSpace(c: char)
    ensures IsSpace(CharLower(c)) <==> IsSpace(c)
  {
  }

  lemma {:induction false} LowerTrimLeft(s: string)
    ensures Lower(TrimLeft(s)) == TrimLeft(Lower(s))
  {
    if s != [] {
      LowerKeepsSpace(s[0]);
      LowerTrimLeft(s[1..]);
      assert Lower(s)[1..] == Lower(s[1..]);
    }
  }

  lemma {:induction false} LowerTrimRight(s: string)
    ensures Lower(TrimRight(s)) == TrimRight(Lower(s))
  {
    if s != [] {
      LowerKeepsSpace(s[|s| - 1]);
      LowerTrimRight(s[..|s| - 1]);
      assert Lower(s)[..|s| - 1] == Lower(s[..|s| - 1]);
    }
  }

  lemma LowerIdempotent(s: string)
    ensures Lower(Lower(s)) == Lower(s)
  {
  }

  /** The testing-status lookup ignores letter case. */
  lemma TestingStatusIgnoresCase(v: string)
    ensures TestingStatus(Lower(v)) == TestingStatus(v)
  {
    LowerTrimLeft(v);
    LowerTrimRight(TrimLeft(v));
    LowerTrimLeft(Lower(v));
    LowerTrimRight(TrimLeft(Lower(v)));
    LowerIdempotent(TrimLeft(v));
    LowerIdempotent(Strip(v));
  }

  /** The standard project stage a CSV key stands for (wizard.py:1517-1528). */
  function ProjectStandardStage(key: string): Option<string> {
    if key == "DA FARE" || key == "TO DO" then Some("Da fare")
    else if key == "IN CORSO" || key == "IN PROGRESS" then Some("In corso")
    else if key == "COMPLETATO" || key == "COMPLETED" || key == "CHIUSO" then Some("Completato")
    else if key == "ANNULLATO" || key == "CANCELLED" || key == "CANCELED" then Some("Annullato")
    else None
  }

  predicate IsProjectStandardName(n: string) {
    n == "Da fare" || n == "In corso" || n == "Completato" || n == "Annullato"
  }

  /** The name of the project stage a CSV value stands for
      (wizard.py:1529-1533): a standard name, or the stripped value. */
  function ProjectStageName(v: string): (r: string)
    ensures IsProjectStandardName(r) || r == Strip(v)
    ensures ProjectStandardStage(Upper(Strip(v))).None? ==> r == Strip(v)
  {
    var key := Upper(Strip(v));
    if ProjectStandardStage(key).Some? then ProjectStandardStage(key).value else Strip(v)
  }

  /** `Upper` distributes over concatenation. */
  lemma {:induction false} UpperAppend(a: string, b: string)
    ensures Upper(a + b) == Upper(a) + Upper(b)
  {
    if a == [] {
      assert a + b == b;
    } else {
      assert (a + b)[1..] == a[1..] + b;
      UpperAppend(a[1..], b);
    }
  }

  /** The key of an unmapped value maps to its own strip, and so does
      that strip. */
  lemma StripTwice(v: string)
    ensures Upper(Strip(Strip(v))) == Upper(Strip(v)) && Strip(Strip(v)) == Strip(v)
  {
    StripIdempotent(v);
  }

  /** A stripped value whose upper case is the key of the stage the value
      names maps to itself. */
  lemma ProjectStageByKey(n: string, key: string)
    requires Strip(n) == n && Upper(n) == key && ProjectStandardStage(key) == Some(n)
    ensures ProjectStageName(n) == n
  {
  }

  /** The upper-case standard names are keys of their own stages. */
  lemma ProjectStageKeys()
    ensures ProjectStandardStage("DA FARE") == Some("Da fare")
    ensures ProjectStandardStage("IN CORSO") == Some("In corso")
    ensures ProjectStandardStage("COMPLETATO") == Some("Completato")
    ensures ProjectStandardStage("ANNULLATO") == Some("Annullato")
  {
  }

  /** The four standard project stage names map to themselves. */
  lemma ProjectStandardNameFixed(n: string)
    requires IsProjectStandardName(n)
    ensures ProjectStageName(n) == n
  {
    StripOfStripped(n);
    ProjectStageKeys();
    var key := if n == "Da fare" then "DA FARE"
      else if n == "In corso" then "IN CORSO"
      else if n == "Completato" then "COMPLETATO"
      else "ANNULLATO";
    UpperIs(n, key);
    ProjectStageByKey(n, key);
  }

  /** Mapping a stage name again changes nothing: the four standard names
      map to themselves. */
  lemma ProjectStageNameIdempotent(v: string)
    ensures ProjectStageName(ProjectStageName(v)) == ProjectStageName(v)
  {
    if ProjectStandardStage(Upper(Strip(v))).Some? {
      ProjectStandardNameFixed(ProjectStageName(v));
    } else {
      StripTwice(v);
    }
  }

  /** The task stage a CSV key stands for (wizard.py:1882-1886). */
  function TaskStandardStage(key: string): Option<string> {
    if key == "ANNULLATA" then Some("Annullata")
    else if key == "TO DO" then Some("Attività da fare")
    else if key == "COMPLETED" then Some("Attività fatta")
    else None
  }

  predicate IsTaskStandardName(n: string) {
    n == "Annullata" || n == "Attività da fare" || n == "Attività fatta"
  }

  /** The task stage name of a CSV value (wizard.py:1887-1888), and whether
      the row also sets the task state to done (wizard.py:1899-1900): only
      when the value itself reads 'ATTIVITÀ FATTA' in any case. */
  function TaskStage(v: string): (r: (string, bool))
    ensures IsTaskStandardName(r.0) || r.0 == Strip(v)
    ensures TaskStandardStage(Upper(Strip(v))).None? ==> r.0 == Strip(v)
    ensures r.1 <==> Upper(Strip(v)) == "ATTIVITÀ FATTA"
  {
    var key := Upper(Strip(v));
    (if TaskStandardStage(key).Some? then TaskStandardStage(key).value else Strip(v),
     key == "ATTIVITÀ FATTA")
  }

  /** A stripped value whose upper case is the key of the stage the value
      names, or no key at all, maps to itself. */
  lemma TaskStageByKey(n: string, key: string)
    requires Strip(n) == n && Upper(n) == key
    requires TaskStandardStage(key) == Some(n) || TaskStandardStage(key).None?
    ensures TaskStage(n).0 == n
  {
  }

  /** 'ANNULLATA' is the key of its own stage; the upper case of the two
      activity stage names is no key, so those names pass through. */
  lemma TaskStageKeys()
    ensures TaskStandardStage("ANNULLATA") == Some("Annullata")
    ensures TaskStandardStage("ATTIVITÀ DA FARE").None?
    ensures TaskStandardStage("ATTIVITÀ FATTA").None?
  {
  }

  /** The three standard task stage names map to themselves. */
  lemma TaskStandardNameFixed(n: string)
    requires IsTaskStandardName(n)
    ensures TaskStage(n).0 == n
  {
    StripOfStripped(n);
    TaskStageKeys();
    var key := if n == "Annullata" then "ANNULLATA"
      else if n == "Attività da fare" then "ATTIVITÀ DA FARE"
      else "ATTIVITÀ FATTA";
    UpperIs(n, key);
    TaskStageByKey(n, key);
  }

  lemma TaskStageNameIdempotent(v: string)
    ensures TaskStage(TaskStage(v).0).0 == TaskStage(v).0
  {
    if TaskStandardStage(Upper(Strip(v))).Some? {
      TaskStandardNameFixed(TaskStage(v).0);
    } else {
      StripTwice(v);
    }
  }

  /** 'Completed' files the task under 'Attività fatta' without marking it
      done; only a value reading 'Attività fatta' itself marks it done, and
      its stage is the value as written. */
  lemma TaskStageDone(v: string)
    ensures Upper(Strip(v)) == "COMPLETED" ==> TaskStage(v) == ("Attività fatta", false)
    ensures Upper(Strip(v)) == "ATTIVITÀ FATTA" ==> TaskStage(v) == (Strip(v), true)
  {
  }

  /** The helpdesk stage a CSV key stands for (wizard.py:2264-2273). */
  function HelpdeskStandardStage(key: string): Option<string> {
    if key == "APERTO" || key == "PIANIFICAZIONE" then Some("Nuovo")
    else if key == "IN CORSO" then Some("In corso")
    else if key == "IN ATTESA" || key == "SOSPESO" then Some("In attesa")
    else if key == "CHIUSO - OK" then Some("Fatto")
    else if key == "CHIUSO - KO" then Some("Respinto")
    else if key == "ANNULLATO" then Some("Annullato")
    else None
  }

  predicate IsHelpdeskStandardName(n: string) {
    n == "Nuovo" || n == "In corso" || n == "In attesa" || n == "Fatto" || n == "Respinto" || n == "Annullato"
  }

  /** The helpdesk stage name of a CSV value (wizard.py:2275-2276). */
  function HelpdeskStageName(v: string): (r: string)
    ensures IsHelpdeskStandardName(r) || r == Strip(v)
    ensures HelpdeskStandardStage(Upper(Strip(v))).None? ==> r == Strip(v)
  {
    var key := Upper(Strip(v));
    if HelpdeskStandardStage(key).Some? then HelpdeskStandardStage(key).value else Strip(v)
  }

  /** A stripped value whose upper case is the key of the stage the value
      names, or no key at all, maps to itself. */
  lemma HelpdeskStageByKey(n: string, key: string)
    requires Strip(n) == n && Upper(n) == key
    requires HelpdeskStandardStage(key) == Some(n) || HelpdeskStandardStage(key).None?
    ensures HelpdeskStageName(n) == n
  {
  }

  /** Three upper-case standard names are keys of their own stages; the
      other three are no key, so those names pass through. */
  lemma HelpdeskStageKeys()
    ensures HelpdeskStandardStage("NUOVO").None?
    ensures HelpdeskStandardStage("IN CORSO") == Some("In corso")
    ensures HelpdeskStandardStage("IN ATTESA") == Some("In attesa")
    ensures HelpdeskStandardStage("FATTO").None?
    ensures HelpdeskStandardStage("RESPINTO").None?
    ensures HelpdeskStandardStage("ANNULLATO") == Some("Annullato")
  {
  }

  /** The three standard names that are the stages of their own upper
      case map to themselves. */
  lemma HelpdeskKeyedNameFixed(n: string)
    requires n == "In corso" || n == "In attesa" || n == "Annullato"
    ensures HelpdeskStageName(n) == n
  {
    StripOfStripped(n);
    HelpdeskStageKeys();
    var key := if n == "In corso" then "IN CORSO"
      else if n == "In attesa" then "IN ATTESA"
      else "ANNULLATO";
    UpperIs(n, key);
    HelpdeskStageByKey(n, key);
  }

  /** The three standard names whose upper case is no key pass through
      unchanged: an unmapped value gives its own strip. */
  lemma HelpdeskUnkeyedNameFixed(n: string)
    requires n == "Nuovo" || n == "Fatto" || n == "Respinto"
    ensures HelpdeskStageName(n) == n
  {
    StripOfStripped(n);
    HelpdeskStageKeys();
    UpperIs(n, if n == "Nuovo" then "NUOVO" else if n == "Fatto" then "FATTO" else "RESPINTO");
  }

  /** The six standard helpdesk stage names map to themselves. */
  lemma HelpdeskStandardNameFixed(n: string)
    requires IsHelpdeskStandardName(n)
    ensures HelpdeskStageName(n) == n
  {
    if n == "In corso" || n == "In attesa" || n == "Annullato" {
      HelpdeskKeyedNameFixed(n);
    } else {
      HelpdeskUnkeyedNameFixed(n);
    }
  }

  lemma HelpdeskStageNameIdempotent(v: string)
    ensures HelpdeskStageName(HelpdeskStageName(v)) == HelpdeskStageName(v)
  {
    if HelpdeskStandardStage(Upper(Strip(v))).Some? {
      HelpdeskStandardNameFixed(HelpdeskStageName(v));
    } else {
      StripTwice(v);
    }
  }

  predicate OccursAt(s: string, sub: string, i: int) {
    0 <= i && i + |sub| <= |s| && s[i..i + |sub|] == sub
  }

  /** Python's `sub in s`. */
  predicate Contains(s: string, sub: string) {
    exists i | 0 <= i <= |s| :: OccursAt(s, sub, i)
  }

  /** The flags of a helpdesk stage created for an unknown name
      (wizard.py:2282-2287): sequence 10, closed when the key mentions
      'CHIUSO', unattended when it mentions 'ATTESA' or 'SOSPESO'. */
  datatype HelpdeskStage = HelpdeskStage(name: string, sequence: int, closed: bool, unattended: bool)

  function NewHelpdeskStage(v: string): (r: HelpdeskStage)
    ensures r.name == HelpdeskStageName(v) && r.sequence == 10
    ensures r.closed <==> Contains(Upper(Strip(v)), "CHIUSO")
    ensures r.unattended <==> Contains(Upper(Strip(v)), "ATTESA") || Contains(Upper(Strip(v)), "SOSPESO")
  {
    var key := Upper(Strip(v));
    HelpdeskStage(HelpdeskStageName(v), 10, Contains(key, "CHIUSO"),
                  Contains(key, "ATTESA") || Contains(key, "SOSPESO"))
  }

  // ---------------------------------------------------------------------
  // Tag command list (wizard.py:1912-1916)

  /** The ORM command `(4, id)`: link an existing tag. */
  datatype TagCommand = LinkTag(id: nat)

  function TagIds(cmds: seq<TagCommand>): set<nat> {
    set i | 0 <= i < |cmds| :: cmds[i].id
  }

  predicate NoDuplicateTags(cmds: seq<TagCommand>) {
    forall i, j :: 0 <= i < j < |cmds| ==> cmds[i].id != cmds[j].id
  }

  lemma TagIdsSnoc(cmds: seq<TagCommand>, c: TagCommand)
    ensures TagIds(cmds + [c]) == TagIds(cmds) + {c.id}
  {
    var r := cmds + [c];
    forall x | x in TagIds(r) ensures x in TagIds(cmds) + {c.id} {
      var i :| 0 <= i < |r| && r[i].id == x;
      if i < |cmds| {
        assert cmds[i] == r[i];
      }
    }
    forall x | x in TagIds(cmds) ensures x in TagIds(r) {
      var i :| 0 <= i < |cmds| && cmds[i].id == x;
      assert r[i] == cmds[i];
    }
    assert r[|cmds|].id == c.id;
  }

  /** Append `(4, tag)` unless the list already links `tag`. */
  function AddTag(cmds: seq<TagCommand>, tag: nat): seq<TagCommand> {
    if exists i | 0 <= i < |cmds| :: cmds[i].id == tag then cmds else cmds + [LinkTag(tag)]
  }

  /** Linking a tag adds exactly that tag, appends only when it was not
      linked yet, and keeps a list without duplicates without duplicates. */
  lemma AddTagLinks(cmds: seq<TagCommand>, tag: nat)
    ensures var r := AddTag(cmds, tag);
      && TagIds(r) == TagIds(cmds) + {tag}
      && (NoDuplicateTags(cmds) ==> NoDuplicateTags(r))
      && |cmds| <= |r| <= |cmds| + 1 && r[..|cmds|] == cmds
      && (|r| == |cmds| + 1 <==> tag !in TagIds(cmds))
  {
    if !exists i | 0 <= i < |cmds| :: cmds[i].id == tag {
      TagIdsSnoc(cmds, LinkTag(tag));
      assert (cmds + [LinkTag(tag)])[..|cmds|] == cmds;
    }
  }

  // ---------------------------------------------------------------------
  // Helpdesk description (wizard.py:2323-2332)

  /** `html.escape` (with quotes) on one character. */
  function EscapeChar(c: char): string {
    if c == '&' then "&amp;"
    else if c == '<' then "&lt;"
    else if c == '>' then "&gt;"
    else if c == '"' then "&quot;"
    else if c == '\'' then "&#x27;"
    else [c]
  }

  function HtmlEscape(s: string): string {
    if s == [] then [] else EscapeChar(s[0]) + HtmlEscape(s[1..])
  }

  /** `.replace('\n', '<br/>')`. */
  function BreakLines(s: string): string {
    if s == [] then [] else (if s[0] == '\n' then "<br/>" else [s[0]]) + BreakLines(s[1..])
  }

  /** The description stored on a ticket. */
  function DescriptionHtml(v: string): string {
    if v != "" then "<p>" + BreakLines(HtmlEscape(v)) + "</p>" else "<p></p>"
  }

  /** A paragraph body starts with the fragment `p`. */
  predicate At(h: string, p: string) {
    |p| <= |h| && h[..|p|] == p
  }

  /** Reading the text back out of an escaped, line-broken paragraph body. */
  function Unescape(h: string): Option<string>
    decreases |h|
  {
    if h == [] then Some([])
    else if At(h, "&amp;") then var t :- Unescape(h[5..]); Some("&" + t)
    else if At(h, "&lt;") then var t :- Unescape(h[4..]); Some("<" + t)
    else if At(h, "&gt;") then var t :- Unescape(h[4..]); Some(">" + t)
    else if At(h, "&quot;") then var t :- Unescape(h[6..]); Some("\"" + t)
    else if At(h, "&#x27;") then var t :- Unescape(h[6..]); Some("'" + t)
    else if At(h, "<br/>") then var t :- Unescape(h[5..]); Some("\n" + t)
    else if h[0] == '&' || h[0] == '<' then None
    else var t :- Unescape(h[1..]); Some([h[0]] + t)
  }

  function DescriptionText(h: string): Option<string> {
    if |h| >= 7 && h[..3] == "<p>" && h[|h| - 4..] == "</p>" then Unescape(h[3..|h| - 4]) else None
  }

  /** The body of the paragraph for one character. */
  function EncodeChar(c: char): string {
    if c == '\n' then "<br/>" else EscapeChar(c)
  }

  lemma {:induction false} BreakLinesAppend(a: string, b: string)
    ensures BreakLines(a + b) == BreakLines(a) + BreakLines(b)
  {
    if a == [] {
      assert a + b == b;
    } else {
      assert (a + b)[1..] == a[1..] + b;
      BreakLinesAppend(a[1..], b);
    }
  }

  lemma {:induction false} BreakLinesPlain(s: string)
    requires '\n' !in s
    ensures BreakLines(s) == s
  {
    if s != [] {
      assert s[0] != '\n';
      BreakLinesPlain(s[1..]);
      assert s == [s[0]] + s[1..];
    }
  }

  lemma NotAt(h: string, p: string, i: int)
    requires 0 <= i < |p| && (i >= |h| || h[i] != p[i])
    ensures !At(h, p)
  {
    if |p| <= |h| {
      assert h[..|p|][i] == h[i];
    }
  }

  lemma AtAppend(p: string, rest: string)
    ensures At(p + rest, p) && (p + rest)[|p|..] == rest
  {
    assert (p + rest)[..|p|] == p;
  }

  lemma EncodeCharUnescapes(c: char, rest: string)
    ensures Unescape(EncodeChar(c) + rest) == (var t :- Unescape(rest); Some([c] + t))
  {
    var e := EncodeChar(c);
    var h := e + rest;
    AtAppend(e, rest);
    if c == '&' {
    } else if c == '<' {
      NotAt(h, "&amp;", 1);
    } else if c == '>' {
      NotAt(h, "&amp;", 1); NotAt(h, "&lt;", 1);
    } else if c == '"' {
      NotAt(h, "&amp;", 1); NotAt(h, "&lt;", 1); NotAt(h, "&gt;", 1);
    } else if c == '\'' {
      NotAt(h, "&amp;", 1); NotAt(h, "&lt;", 1); NotAt(h, "&gt;", 1); NotAt(h, "&quot;", 1);
    } else if c == '\n' {
      NotAt(h, "&amp;", 0); NotAt(h, "&lt;", 0); NotAt(h, "&gt;", 0);
      NotAt(h, "&quot;", 0); NotAt(h, "&#x27;", 0);
    } else {
      assert e == [c] && h[0] == c;
      NotAt(h, "&amp;", 0); NotAt(h, "&lt;", 0); NotAt(h, "&gt;", 0);
      NotAt(h, "&quot;", 0); NotAt(h, "&#x27;", 0); NotAt(h, "<br/>", 0);
    }
  }

  /** Breaking the lines of one escaped character gives its encoding. */
  lemma EncodeCharIsBroken(c: char)
    ensures BreakLines(EscapeChar(c)) == EncodeChar(c)
  {
    if c != '\n' {
      BreakLinesPlain(EscapeChar(c));
    }
  }

  /** Escaping then breaking lines turns the first character into its
      encoding and leaves the rest to the recursion. */
  lemma {:induction false} EncodeFirst(v: string)
    requires v != []
    ensures BreakLines(HtmlEscape(v)) == EncodeChar(v[0]) + BreakLines(HtmlEscape(v[1..]))
  {
    var c := v[0];
    assert HtmlEscape(v) == EscapeChar(c) + HtmlEscape(v[1..]);
    BreakLinesAppend(EscapeChar(c), HtmlEscape(v[1..]));
    EncodeCharIsBroken(c);
  }

  lemma {:induction false} BodyUnescapes(v: string)
    ensures Unescape(BreakLines(HtmlEscape(v))) == Some(v)
  {
    if v != [] {
      var tail := BreakLines(HtmlEscape(v[1..]));
      EncodeFirst(v);
      BodyUnescapes(v[1..]);
      EncodeCharUnescapes(v[0], tail);
      assert v == [v[0]] + v[1..];
    }
  }

  /** Round trip: the stored paragraph gives back the CSV text. */
  lemma DescriptionRoundTrip(v: string)
    ensures DescriptionText(DescriptionHtml(v)) == Some(v)
  {
    var body := BreakLines(HtmlEscape(v));
    var h := DescriptionHtml(v);
    assert h == "<p>" + body + "</p>";
    assert h[..3] == "<p>" && h[|h| - 4..] == "</p>";
    assert h[3..|h| - 4] == body;
    BodyUnescapes(v);
  }
}
