/** The serialisation that HashVacancy feeds to SHA-256 (internal/core/normalize.go), and its decoder. */
module ContentHash {
  import opened Basics
  import opened Entities
  import opened Normalization

  // ---- strconv.Itoa and its inverse ----

  function Digit(d: nat): char
    requires d < 10
  {
    ('0' as int + d) as char
  }

  function Digits(n: nat): (s: string)
    ensures s != [] && forall i :: 0 <= i < |s| ==> '0' <= s[i] <= '9'
  {
    if n < 10 then [Digit(n)] else Digits(n / 10) + [Digit(n % 10)]
  }

  function Itoa(n: int): string {
    if n < 0 then "-" + Digits(-n) else Digits(n)
  }

  function DigitsValue(s: string): int {
    if s == [] then 0 else 10 * DigitsValue(s[..|s| - 1]) + (s[|s| - 1] as int - '0' as int)
  }

  function Atoi(s: string): int {
    if s != [] && s[0] == '-' then -DigitsValue(s[1..]) else DigitsValue(s)
  }

  lemma {:induction false} DigitsValueOfDigits(n: nat)
    ensures DigitsValue(Digits(n)) == n
  {
    if n >= 10 {
      DigitsValueOfDigits(n / 10);
      var s := Digits(n);
      assert s[..|s| - 1] == Digits(n / 10);
    } else {
      assert DigitsValue([Digit(n)][..0]) == 0;
    }
  }

  lemma AtoiOfItoa(n: int)
    ensures Atoi(Itoa(n)) == n
    ensures Itoa(n) != "" && '\0' !in Itoa(n)
  {
    if n < 0 {
      DigitsValueOfDigits(-n);
      assert Itoa(n)[1..] == Digits(-n);
    } else {
      DigitsValueOfDigits(n);
    }
  }

  // ---- the sixteen components ----

  datatype Components = Components(
    title: string, companyName: string, location: string, canonicalUrl: string,
    remoteType: string, employmentType: string, grade: string,
    salaryFrom: Option<int>, salaryTo: Option<int>, currency: string,
    description: string, requirements: string, responsibilities: string,
    skills: seq<string>, languageRequirements: seq<string>, workAuthorizationRequirements: seq<string>)

  function ComponentsOf(t: Text, raw: RawVacancy): Components {
    Components(
      NormalizeText(t, raw.title), NormalizeText(t, raw.companyName),
      NormalizeText(t, raw.location), NormalizeText(t, raw.canonicalUrl),
      NormalizeText(t, raw.remoteType), NormalizeText(t, raw.employmentType), NormalizeText(t, raw.grade),
      raw.salaryFrom, raw.salaryTo, NormalizeText(t, raw.currency),
      NormalizeText(t, raw.description), NormalizeText(t, raw.requirements), NormalizeText(t, raw.responsibilities),
      NormalizedList(t, raw.skills), NormalizedList(t, raw.languageRequirements),
      NormalizedList(t, raw.workAuthorizationRequirements))
  }

  function SalaryPart(salary: Option<int>): string {
    match salary case None => "" case Some(n) => Itoa(n)
  }

  function Parts(c: Components): seq<string> {
    [c.title, c.companyName, c.location, c.canonicalUrl, c.remoteType, c.employmentType, c.grade,
     SalaryPart(c.salaryFrom), SalaryPart(c.salaryTo), c.currency,
     c.description, c.requirements, c.responsibilities,
     Join(c.skills, ","), Join(c.languageRequirements, ","), Join(c.workAuthorizationRequirements, ",")]
  }

  function Serialize(parts: seq<string>): string {
    if parts == [] then [] else parts[0] + "\0" + Serialize(parts[1..])
  }

  function Encode(c: Components): string {
    Serialize(Parts(c))
  }

  // ---- the decoder ----

  function Unserialize(s: string): seq<string>
    decreases |s|
  {
    var k := IndexOf(s, '\0');
    if k < |s| then [s[..k]] + Unserialize(s[k + 1..]) else []
  }

  function Split(s: string): seq<string>
    decreases |s|
  {
    var k := IndexOf(s, ',');
    if k < |s| then [s[..k]] + Split(s[k + 1..]) else [s]
  }

  function ListOf(part: string): seq<string> {
    if part == "" then [] else Split(part)
  }

  function SalaryOf(part: string): Option<int> {
    if part == "" then None else Some(Atoi(part))
  }

  function Decode(s: string): Option<Components> {
    var p := Unserialize(s);
    if |p| != 16 then None
    else Some(Components(p[0], p[1], p[2], p[3], p[4], p[5], p[6], SalaryOf(p[7]), SalaryOf(p[8]), p[9],
                         p[10], p[11], p[12], ListOf(p[13]), ListOf(p[14]), ListOf(p[15])))
  }

  lemma {:induction false} UnserializeInverts(parts: seq<string>)
    requires forall i :: 0 <= i < |parts| ==> Plain(parts[i])
    ensures Unserialize(Serialize(parts)) == parts
  {
    if parts != [] {
      var s := Serialize(parts);
      assert s == parts[0] + ['\0'] + Serialize(parts[1..]);
      IndexOfFirst(parts[0], '\0', Serialize(parts[1..]));
      assert s[..|parts[0]|] == parts[0] && s[|parts[0]| + 1..] == Serialize(parts[1..]);
      UnserializeInverts(parts[1..]);
    }
  }

  ghost predicate PlainItems(items: seq<string>) {
    forall x :: x in items ==> x != "" && ',' !in x && '\0' !in x
  }

  lemma SplitOne(item: string)
    requires item != "" && ',' !in item
    ensures ListOf(item) == [item]
  {
  }

  lemma SplitCons(item: string, tail: string)
    requires ',' !in item && tail != ""
    ensures ListOf(item + "," + tail) == [item] + ListOf(tail)
  {
    var s := item + [','] + tail;
    IndexOfFirst(item, ',', tail);
    assert s[..|item|] == item && s[|item| + 1..] == tail;
  }

  lemma {:induction false} SplitInverts(items: seq<string>)
    requires PlainItems(items)
    ensures ListOf(Join(items, ",")) == items
    ensures items != [] ==> Join(items, ",") != ""
  {
    if |items| == 1 {
      assert items[0] in items;
      SplitOne(items[0]);
    } else if |items| > 1 {
      assert items[0] in items;
      assert PlainItems(items[1..]) by {
        forall x | x in items[1..] ensures x in items { }
      }
      SplitInverts(items[1..]);
      SplitCons(items[0], Join(items[1..], ","));
    }
  }

  predicate Plain(s: string) {
    '\0' !in s
  }

  ghost predicate WellFormed(c: Components) {
    && Plain(c.title) && Plain(c.companyName) && Plain(c.location) && Plain(c.canonicalUrl) && Plain(c.remoteType)
    && Plain(c.employmentType) && Plain(c.grade) && Plain(c.currency) && Plain(c.description) && Plain(c.requirements)
    && Plain(c.responsibilities)
    && PlainItems(c.skills) && PlainItems(c.languageRequirements) && PlainItems(c.workAuthorizationRequirements)
  }

  lemma SalaryInverts(salary: Option<int>)
    ensures SalaryOf(SalaryPart(salary)) == salary && Plain(SalaryPart(salary))
  {
    if salary.Some? { AtoiOfItoa(salary.value); }
  }

  lemma {:induction false} JoinIsPlain(items: seq<string>)
    requires PlainItems(items)
    ensures Plain(Join(items, ","))
  {
    if items != [] {
      assert items[0] in items;
      assert PlainItems(items[1..]) by {
        forall x | x in items[1..] ensures x in items { }
      }
      JoinIsPlain(items[1..]);
    }
  }

  lemma PartsArePlain(c: Components)
    requires WellFormed(c)
    ensures forall i :: 0 <= i < |Parts(c)| ==> Plain(Parts(c)[i])
  {
    forall i | 0 <= i < |Parts(c)| ensures Plain(Parts(c)[i]) {
      if
      case i == 7 => SalaryInverts(c.salaryFrom);
      case i == 8 => SalaryInverts(c.salaryTo);
      case i == 13 => JoinIsPlain(c.skills);
      case i == 14 => JoinIsPlain(c.languageRequirements);
      case i == 15 => JoinIsPlain(c.workAuthorizationRequirements);
      case i < 7 || 9 <= i < 13 =>
    }
  }

  /** Round trip: the decoder inverts the encoder. */
  lemma DecodeInvertsEncode(c: Components)
    requires WellFormed(c)
    ensures Decode(Encode(c)) == Some(c)
  {
    SalaryInverts(c.salaryFrom);
    SalaryInverts(c.salaryTo);
    SplitInverts(c.skills);
    SplitInverts(c.languageRequirements);
    SplitInverts(c.workAuthorizationRequirements);
    PartsArePlain(c);
    UnserializeInverts(Parts(c));
  }

  lemma NormalTextIsPlain(t: Text, value: string)
    requires Lawful(t)
    ensures Plain(NormalizeText(t, value))
  {
    NormalizeTextIsTidy(t, value);
    TidyHasNoMarkup(t, NormalizeText(t, value));
  }

  lemma NormalListIsPlain(t: Text, values: seq<string>)
    requires Lawful(t)
    ensures PlainItems(NormalizedList(t, values))
  {
    forall x | x in NormalizedList(t, values) ensures x != "" && ',' !in x && '\0' !in x {
      var v :| v in values && NormalizeSkill(t, v) == x && x != "";
      NormalizeSkillIdempotent(t, v);
      TidyHasNoMarkup(t, x);
    }
  }

  lemma ComponentsAreWellFormed(t: Text, raw: RawVacancy)
    requires Lawful(t)
    ensures WellFormed(ComponentsOf(t, raw))
  {
    NormalTextIsPlain(t, raw.title);
    NormalTextIsPlain(t, raw.companyName);
    NormalTextIsPlain(t, raw.location);
    NormalTextIsPlain(t, raw.canonicalUrl);
    NormalTextIsPlain(t, raw.remoteType);
    NormalTextIsPlain(t, raw.employmentType);
    NormalTextIsPlain(t, raw.grade);
    NormalTextIsPlain(t, raw.currency);
    NormalTextIsPlain(t, raw.description);
    NormalTextIsPlain(t, raw.requirements);
    NormalTextIsPlain(t, raw.responsibilities);
    NormalListIsPlain(t, raw.skills);
    NormalListIsPlain(t, raw.languageRequirements);
    NormalListIsPlain(t, raw.workAuthorizationRequirements);
  }

  /** Injectivity: equal bytes iff all sixteen normalised components agree. */
  lemma SerializationIsInjective(t: Text, a: RawVacancy, b: RawVacancy)
    requires Lawful(t)
    ensures Encode(ComponentsOf(t, a)) == Encode(ComponentsOf(t, b)) <==> SameContentAndUrl(t, a, b)
  {
    ComponentsAreWellFormed(t, a);
    ComponentsAreWellFormed(t, b);
    DecodeInvertsEncode(ComponentsOf(t, a));
    DecodeInvertsEncode(ComponentsOf(t, b));
    SameComponents(t, a, b);
  }

  lemma SameComponents(t: Text, a: RawVacancy, b: RawVacancy)
    requires Lawful(t)
    ensures ComponentsOf(t, a) == ComponentsOf(t, b) <==> SameContentAndUrl(t, a, b)
  {
    NormalizedListIsCanonical(t, a.skills, b.skills);
    NormalizedListIsCanonical(t, a.languageRequirements, b.languageRequirements);
    NormalizedListIsCanonical(t, a.workAuthorizationRequirements, b.workAuthorizationRequirements);
  }

  /** Agreement component by component, lists compared as sets of normalised items. */
  predicate SameContentAndUrl(t: Text, a: RawVacancy, b: RawVacancy) {
    SameContent(t, a, b) && NormalizeText(t, a.canonicalUrl) == NormalizeText(t, b.canonicalUrl)
  }

  predicate SameContent(t: Text, a: RawVacancy, b: RawVacancy) {
    && NormalizeText(t, a.title) == NormalizeText(t, b.title)
    && NormalizeText(t, a.companyName) == NormalizeText(t, b.companyName)
    && NormalizeText(t, a.location) == NormalizeText(t, b.location)
    && NormalizeText(t, a.remoteType) == NormalizeText(t, b.remoteType)
    && NormalizeText(t, a.employmentType) == NormalizeText(t, b.employmentType)
    && NormalizeText(t, a.grade) == NormalizeText(t, b.grade)
    && a.salaryFrom == b.salaryFrom && a.salaryTo == b.salaryTo
    && NormalizeText(t, a.currency) == NormalizeText(t, b.currency)
    && NormalizeText(t, a.description) == NormalizeText(t, b.description)
    && NormalizeText(t, a.requirements) == NormalizeText(t, b.requirements)
    && NormalizeText(t, a.responsibilities) == NormalizeText(t, b.responsibilities)
    && Items(t, a.skills) == Items(t, b.skills)
    && Items(t, a.languageRequirements) == Items(t, b.languageRequirements)
    && Items(t, a.workAuthorizationRequirements) == Items(t, b.workAuthorizationRequirements)
  }

  /** The source's loop: each part and then one NUL byte goes into the hash. */
  method WriteParts(parts: seq<string>) returns (bytes: string)
    ensures bytes == Serialize(parts)
  {
    bytes := [];
    for i := 0 to |parts|
      invariant bytes + Serialize(parts[i..]) == Serialize(parts)
    {
      assert parts[i..][1..] == parts[i + 1..];
      bytes := bytes + parts[i];
      bytes := bytes + "\0";
    }
  }

  /** NormalizeVacancy strips the long texts and leaves the canonical URL out of the hash input. */
  function HashInput(t: Text, raw: RawVacancy): RawVacancy {
    raw.(description := StripHTML(t, raw.description), requirements := StripHTML(t, raw.requirements),
         responsibilities := StripHTML(t, raw.responsibilities), canonicalUrl := "")
  }

  function ContentHashOf(t: Text, sha: string -> string, raw: RawVacancy): string {
    sha(Encode(ComponentsOf(t, HashInput(t, raw))))
  }

  ghost predicate CollisionFree(sha: string -> string) {
    forall a, b :: sha(a) == sha(b) ==> a == b
  }

  /** Two postings share a content hash iff they agree on everything but where they were found. */
  lemma ContentHashIdentifiesContent(t: Text, sha: string -> string, a: RawVacancy, b: RawVacancy)
    requires Lawful(t) && CollisionFree(sha)
    ensures ContentHashOf(t, sha, a) == ContentHashOf(t, sha, b)
            <==> SameContent(t, HashInput(t, a), HashInput(t, b))
  {
    SerializationIsInjective(t, HashInput(t, a), HashInput(t, b));
  }
}
