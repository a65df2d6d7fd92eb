/**
 The email dedupe key: which spellings of an address are one mailbox.

 Letter case is folded for the ASCII letters.
 */
module Identity {
  import opened Wrappers
  import opened Transitions

  const DOT_INSENSITIVE_DOMAINS: set<string> := {"gmail.com", "googlemail.com"}

  const PLUS_ADDRESSING_DOMAINS: set<string> := {
    "gmail.com", "googlemail.com", "outlook.com", "hotmail.com", "live.com",
    "fastmail.com", "protonmail.com", "proton.me", "yahoo.com", "icloud.com"
  }

  datatype Address = Address(local: string, domain: string)

  datatype NormalizedEmail = NormalizedEmail(display: string, key: string, domain: string)

  function Lower(c: char): char {
    if 'A' <= c <= 'Z' then ((c as int) + 32) as char else c
  }

  function Lowered(text: string): string {
    seq(|text|, i requires 0 <= i < |text| => Lower(text[i]))
  }

  // ----- letter case

  const UPPER := "ABCDEFGHIJKLMNOPQRSTUVWXYZ"
  const LOWER := "abcdefghijklmnopqrstuvwxyz"

  /** One character, or the two forms of one letter. */
  ghost predicate SameLetter(c: char, d: char) {
    c == d || exists i :: AreForms(i, c, d) || AreForms(i, d, c)
  }

  ghost predicate AreForms(i: nat, upper: char, lower: char) {
    i < 26 && UPPER[i] == upper && LOWER[i] == lower
  }

  ghost predicate SameUpToCase(a: string, b: string) {
    |a| == |b| && forall k :: 0 <= k < |a| ==> SameLetter(a[k], b[k])
  }

  ghost predicate NoCapital(text: string) {
    forall k :: 0 <= k < |text| ==> text[k] !in UPPER
  }

  lemma Alphabets(i: nat)
    requires i < 26
    ensures UPPER[i] as int == 'A' as int + i && LOWER[i] as int == 'a' as int + i
  {
  }

  lemma FormsAre(upper: char, lower: char)
    ensures (exists i :: AreForms(i, upper, lower)) <==> 'A' <= upper <= 'Z' && lower as int == upper as int + 32
  {
    forall i: nat | AreForms(i, upper, lower) ensures 'A' <= upper <= 'Z' && lower as int == upper as int + 32 {
      Alphabets(i);
    }
    if 'A' <= upper <= 'Z' && lower as int == upper as int + 32 {
      var i := upper as int - 'A' as int;
      Alphabets(i);
      assert AreForms(i, upper, lower);
    }
  }

  lemma CapitalsAre(c: char)
    ensures c in UPPER <==> 'A' <= c <= 'Z'
  {
    if k :| 0 <= k < 26 && UPPER[k] == c {
      Alphabets(k);
    }
    if 'A' <= c <= 'Z' {
      Alphabets(c as int - 'A' as int);
      assert UPPER[c as int - 'A' as int] == c;
    }
  }

  lemma LowerIs(c: char)
    ensures SameLetter(c, Lower(c)) && Lower(c) !in UPPER && (Lower(c) != c <==> c in UPPER)
  {
    CapitalsAre(c);
    CapitalsAre(Lower(c));
    FormsAre(c, Lower(c));
  }

  lemma SameLetterFolds(c: char, d: char)
    ensures SameLetter(c, d) <==> Lower(c) == Lower(d)
  {
    FormsAre(c, d);
    FormsAre(d, c);
  }

  /** Folding gives the one text without capitals that is the same up to case. */
  lemma LoweredExactlyWhen(text: string, folded: string)
    ensures Lowered(text) == folded <==> SameUpToCase(text, folded) && NoCapital(folded)
  {
    forall c ensures SameLetter(c, Lower(c)) && Lower(c) !in UPPER && (Lower(c) != c <==> c in UPPER) {
      LowerIs(c);
    }
    forall c, d ensures SameLetter(c, d) <==> Lower(c) == Lower(d) {
      SameLetterFolds(c, d);
    }
    if SameUpToCase(text, folded) && NoCapital(folded) {
      forall k | 0 <= k < |text| ensures Lowered(text)[k] == folded[k] {
        assert SameLetter(text[k], folded[k]) && Lower(folded[k]) == folded[k];
      }
    }
  }

  lemma SameFold(a: string, b: string)
    ensures Lowered(a) == Lowered(b) <==> SameUpToCase(a, b)
  {
    forall k | 0 <= k < |a| && k < |b| ensures SameLetter(a[k], b[k]) <==> Lowered(a)[k] == Lowered(b)[k] {
      SameLetterFolds(a[k], b[k]);
    }
    assert |Lowered(a)| == |a| && |Lowered(b)| == |b|;
  }

  // ----- parts of a text

  function LastIndexOf(text: string, c: char): (at: int)
    ensures -1 <= at < |text|
    ensures at >= 0 ==> text[at] == c && c !in text[at + 1..]
    ensures at == -1 ==> c !in text
  {
    if text == "" then -1
    else
      var last := |text| - 1;
      if text[last] == c then last
      else
        assert text == text[..last] + [text[last]];
        LastIndexOf(text[..last], c)
  }

  function IndexOf(text: string, c: char): (at: int)
    ensures -1 <= at < |text|
    ensures at >= 0 ==> text[at] == c && c !in text[..at]
    ensures at == -1 ==> c !in text
  {
    if text == "" then -1
    else if text[0] == c then 0
    else
      var rest := IndexOf(text[1..], c);
      assert text == [text[0]] + text[1..];
      assert rest >= 0 ==> text[..rest + 1] == [text[0]] + text[1..][..rest];
      if rest == -1 then -1 else rest + 1
  }

  /** The text with every such character taken out. */
  function Without(text: string, c: char): (kept: string)
    ensures c !in kept
    ensures c !in text ==> kept == text
    ensures forall d :: d in kept ==> d in text
  {
    if text == "" then ""
    else
      assert text == [text[0]] + text[1..];
      (if text[0] == c then "" else [text[0]]) + Without(text[1..], c)
  }

  predicate HasSpace(text: string) {
    exists k :: 0 <= k < |text| && IsSpace(text[k])
  }

  predicate HasAlphanumeric(text: string) {
    exists k :: 0 <= k < |text| && ('a' <= text[k] <= 'z' || '0' <= text[k] <= '9')
  }

  function Text(address: Address): string {
    address.local + "@" + address.domain
  }

  /** Split at the last at-sign, if the text is shaped like an address. */
  function Split(text: string): Option<Address> {
    var at := LastIndexOf(text, '@');
    if at <= 0 || at == |text| - 1 then None
    else if '.' !in text[at + 1..] || HasSpace(text) then None
    else Some(Address(text[..at], text[at + 1..]))
  }

  function Parse(raw: string): Option<Address> {
    Split(Lowered(Trim(raw)))
  }

  function Untagged(local: string): string {
    var plus := IndexOf(local, '+');
    if plus > 0 then local[..plus] else local
  }

  predicate IgnoresTags(domain: string) {
    domain in PLUS_ADDRESSING_DOMAINS
  }

  predicate IgnoresDots(domain: string) {
    domain in DOT_INSENSITIVE_DOMAINS
  }

  function Mailbox(local: string, tags: bool, dots: bool): string {
    var untagged := if tags then Untagged(local) else local;
    if dots then Without(untagged, '.') else untagged
  }

  function CanonicalDomain(domain: string): string {
    if domain == "googlemail.com" then "gmail.com" else domain
  }

  function Canonical(address: Address): Address {
    Address(Mailbox(address.local, IgnoresTags(address.domain), IgnoresDots(address.domain)),
            CanonicalDomain(address.domain))
  }

  function NormalizeEmail(raw: string): Option<NormalizedEmail> {
    var parsed := Parse(raw);
    if parsed.None? then None
    else
      var canonical := Canonical(parsed.value);
      if !HasAlphanumeric(canonical.local) then None
      else Some(NormalizedEmail(Text(parsed.value), Text(canonical), canonical.domain))
  }

  // ----- parsing

  predicate Folded(text: string) {
    forall k :: 0 <= k < |text| ==> !('A' <= text[k] <= 'Z') && !IsSpace(text[k])
  }

  predicate WellFormed(address: Address) {
    && address.local != "" && '@' !in address.domain && '.' in address.domain
    && Folded(address.local) && Folded(address.domain)
  }

  /** Nothing to trim from a text without white space. */
  lemma FoldedIsTrimmed(text: string)
    requires Folded(text)
    ensures Lowered(Trim(text)) == text
  {
    assert Trim(text) == text;
  }

  lemma SplitIsUnique(text: string, at: nat)
    requires at < |text| && text[at] == '@' && '@' !in text[at + 1..]
    ensures LastIndexOf(text, '@') == at
  {
    var found := LastIndexOf(text, '@');
  }

  predicate NoUpper(text: string) {
    forall k :: 0 <= k < |text| ==> !('A' <= text[k] <= 'Z')
  }

  lemma SplitIsWellFormed(text: string)
    requires NoUpper(text) && Split(text).Some?
    ensures WellFormed(Split(text).value) && Text(Split(text).value) == text
  {
    var at := LastIndexOf(text, '@');
    assert text == text[..at] + [text[at]] + text[at + 1..];
    assert Folded(text);
  }

  lemma TextParts(address: Address)
    ensures var text, at := Text(address), |address.local|;
            && |text| == at + 1 + |address.domain|
            && text[at] == '@' && text[..at] == address.local && text[at + 1..] == address.domain
            && forall k :: 0 <= k < |text| && k != at ==>
                 text[k] == if k < at then address.local[k] else address.domain[k - at - 1]
  {
  }

  lemma FoldedText(address: Address)
    requires Folded(address.local) && Folded(address.domain)
    ensures Folded(Text(address))
  {
    TextParts(address);
  }

  lemma WellFormedSplits(address: Address)
    requires WellFormed(address)
    ensures Split(Text(address)) == Some(address) && Folded(Text(address))
  {
    TextParts(address);
    FoldedText(address);
    SplitIsUnique(Text(address), |address.local|);
  }

  lemma ParsesFolded(raw: string, address: Address)
    ensures Parse(raw) == Some(address) <==> WellFormed(address) && Text(address) == Lowered(Trim(raw))
  {
    var text := Lowered(Trim(raw));
    assert NoUpper(text);
    if Split(text).Some? {
      SplitIsWellFormed(text);
    }
    if WellFormed(address) {
      WellFormedSplits(address);
    }
  }

  /** The address is what is left between the white space, up to the case of its letters. */
  ghost predicate Spells(raw: string, address: Address) {
    exists core :: TrimmedTo(raw, core) && SameUpToCase(core, Text(address))
  }

  lemma TrimIsCore(raw: string, core: string)
    requires TrimmedTo(raw, core)
    ensures Trim(raw) == core
  {
    TrimExactlyWhen(raw, core);
  }

  lemma FoldedHasNoCapital(text: string)
    requires Folded(text)
    ensures NoCapital(text)
  {
    forall k | 0 <= k < |text| ensures text[k] !in UPPER {
      LowerIs(text[k]);
    }
  }

  lemma SpellsFolded(raw: string, address: Address)
    requires NoCapital(Text(address))
    ensures Spells(raw, address) <==> Lowered(Trim(raw)) == Text(address)
  {
    TrimExactlyWhen(raw, Trim(raw));
    LoweredExactlyWhen(Trim(raw), Text(address));
    if Spells(raw, address) {
      var core :| TrimmedTo(raw, core) && SameUpToCase(core, Text(address));
      TrimIsCore(raw, core);
    }
  }

  /** Parsing finds the one well-formed address the text spells, if there is one. */
  lemma ParseExactlyWhen(raw: string, address: Address)
    ensures Parse(raw) == Some(address) <==> WellFormed(address) && Spells(raw, address)
  {
    ParsesFolded(raw, address);
    if WellFormed(address) {
      FoldedText(address);
      FoldedHasNoCapital(Text(address));
      SpellsFolded(raw, address);
    }
  }

  // ----- the key

  lemma {:induction false} WithoutKeeps(text: string, c: char)
    ensures Folded(text) ==> Folded(Without(text, c))
    ensures text != "" && text[0] != c ==> Without(text, c) != "" && Without(text, c)[0] == text[0]
  {
    if text != "" {
      WithoutKeeps(text[1..], c);
    }
  }

  /** Only a tag that is cut off has a plus sign anywhere but in front. */
  predicate Plain(local: string) {
    '+' !in local || (local != "" && local[0] == '+')
  }

  lemma UntaggedIsPlain(local: string)
    ensures Plain(Untagged(local)) && (Folded(local) ==> Folded(Untagged(local)))
    ensures Plain(local) ==> Untagged(local) == local
  {
    assert IndexOf(local, '+') == 0 ==> local[0] == '+';
  }

  lemma MailboxIsFixed(local: string, tags: bool, dots: bool)
    ensures var mailbox := Mailbox(local, tags, dots);
            && ((dots ==> tags) ==> Mailbox(mailbox, tags, dots) == mailbox)
            && (Folded(local) ==> Folded(mailbox))
  {
    var untagged := if tags then Untagged(local) else local;
    UntaggedIsPlain(local);
    WithoutKeeps(untagged, '.');
    UntaggedIsPlain(Mailbox(local, tags, dots));
  }

  lemma CanonicalDomainIsFixed(domain: string)
    requires Folded(domain) && '@' !in domain && '.' in domain
    ensures var canonical := CanonicalDomain(domain);
            && CanonicalDomain(canonical) == canonical
            && IgnoresTags(canonical) == IgnoresTags(domain) && IgnoresDots(canonical) == IgnoresDots(domain)
            && (IgnoresDots(domain) ==> IgnoresTags(domain))
            && Folded(canonical) && '@' !in canonical && '.' in canonical
  {
    assert "gmail.com"[5] == '.';
  }

  lemma CanonicalIsFixed(address: Address)
    requires WellFormed(address) && HasAlphanumeric(Canonical(address).local)
    ensures WellFormed(Canonical(address)) && Canonical(Canonical(address)) == Canonical(address)
  {
    CanonicalDomainIsFixed(address.domain);
    MailboxIsFixed(address.local, IgnoresTags(address.domain), IgnoresDots(address.domain));
  }

  /** A key is itself an address, and is its own key. */
  lemma KeyIsItsOwnKey(raw: string)
    requires NormalizeEmail(raw).Some?
    ensures var email := NormalizeEmail(raw).value;
            NormalizeEmail(email.key) == Some(NormalizedEmail(email.key, email.key, email.domain))
  {
    var address := Parse(raw).value;
    ParsesFolded(raw, address);
    CanonicalIsFixed(address);
    WellFormedSplits(Canonical(address));
    FoldedIsTrimmed(Text(Canonical(address)));
  }

  lemma TextIsInjective(a: Address, b: Address)
    requires WellFormed(a) && WellFormed(b) && Text(a) == Text(b)
    ensures a == b
  {
    WellFormedSplits(a);
    WellFormedSplits(b);
  }

  predicate IsAlphanumeric(c: char) {
    'a' <= c <= 'z' || '0' <= c <= '9'
  }

  /** A place in the local part that is not cut off with a tag. */
  ghost predicate Survives(address: Address, k: nat) {
    && k < |address.local|
    && (IgnoresTags(address.domain) && address.local[0] != '+' ==> '+' !in address.local[..k + 1])
  }

  lemma {:induction false} WithoutKeepsOthers(text: string, c: char, d: char)
    requires d != c
    ensures d in Without(text, c) <==> d in text
  {
    if text != "" {
      assert text == [text[0]] + text[1..];
      WithoutKeepsOthers(text[1..], c, d);
    }
  }

  ghost predicate BeforeTag(address: Address, c: char) {
    exists k: nat :: Survives(address, k) && address.local[k] == c
  }

  lemma FoundIn(text: string, c: char, k: nat)
    requires k <= |text| && 0 <= IndexOf(text, c) < k
    ensures c in text[..k]
  {
    assert text[..k][IndexOf(text, c)] == c;
  }

  lemma TagIsAfter(local: string, k: nat)
    requires k < |local| && local[0] != '+' && '+' !in local[..k + 1]
    ensures k < |Untagged(local)| && Untagged(local)[k] == local[k]
  {
    if 0 <= IndexOf(local, '+') <= k {
      FoundIn(local, '+', k + 1);
    }
  }

  function BeforeAnyTag(address: Address): string {
    if IgnoresTags(address.domain) then Untagged(address.local) else address.local
  }

  lemma UntaggedIs(address: Address, c: char)
    ensures c in BeforeAnyTag(address) ==> BeforeTag(address, c)
    ensures BeforeTag(address, c) ==> c in BeforeAnyTag(address)
  {
    var local, kept := address.local, BeforeAnyTag(address);
    if c in kept {
      var k :| 0 <= k < |kept| && kept[k] == c;
      UntaggedIsPlain(local);
      assert local[..k + 1] == kept[..k + 1];
      assert Survives(address, k);
    }
    if k: nat :| Survives(address, k) && local[k] == c {
      if IgnoresTags(address.domain) && local[0] != '+' {
        TagIsAfter(local, k);
      }
      assert kept[k] == c;
    }
  }

  lemma MailboxHas(address: Address, c: char)
    requires c != '.'
    ensures c in Canonical(address).local <==> BeforeTag(address, c)
  {
    UntaggedIs(address, c);
    WithoutKeepsOthers(BeforeAnyTag(address), '.', c);
  }

  ghost predicate HasLetterOrDigit(address: Address) {
    exists c :: IsAlphanumeric(c) && BeforeTag(address, c)
  }

  lemma AlphanumericIs(text: string)
    ensures HasAlphanumeric(text) <==> exists c :: IsAlphanumeric(c) && c in text
  {
    if k :| 0 <= k < |text| && ('a' <= text[k] <= 'z' || '0' <= text[k] <= '9') {
      assert IsAlphanumeric(text[k]) && text[k] in text;
    }
  }

  lemma HasKey(address: Address)
    ensures HasAlphanumeric(Canonical(address).local) <==> HasLetterOrDigit(address)
  {
    AlphanumericIs(Canonical(address).local);
    forall c | IsAlphanumeric(c) ensures c in Canonical(address).local <==> BeforeTag(address, c) {
      MailboxHas(address, c);
    }
  }

  /** An address is spelled that has a letter or a digit in front of any tag. */
  ghost predicate Keyed(raw: string, address: Address) {
    WellFormed(address) && Spells(raw, address) && HasLetterOrDigit(address)
  }

  lemma DisplayIs(raw: string)
    requires NormalizeEmail(raw).Some?
    ensures Parse(raw).Some? && NormalizeEmail(raw).value.display == Text(Parse(raw).value)
  {
  }

  lemma KeyedExactlyWhen(raw: string, address: Address)
    ensures Keyed(raw, address) <==> NormalizeEmail(raw).Some? && Parse(raw) == Some(address)
    ensures Keyed(raw, address) ==> NormalizeEmail(raw).value.display == Text(address)
  {
    ParseExactlyWhen(raw, address);
    HasKey(address);
    if NormalizeEmail(raw).Some? {
      DisplayIs(raw);
    }
  }

  /** There is a key exactly when such an address is spelled, and that is what is displayed. */
  lemma NormalizesExactlyWhen(raw: string)
    ensures NormalizeEmail(raw).Some? <==> exists address :: Keyed(raw, address)
    ensures forall address :: Keyed(raw, address) ==>
              NormalizeEmail(raw).Some? && NormalizeEmail(raw).value.display == Text(address)
  {
    forall address | Keyed(raw, address)
      ensures NormalizeEmail(raw).Some? && NormalizeEmail(raw).value.display == Text(address)
    {
      KeyedExactlyWhen(raw, address);
    }
    if NormalizeEmail(raw).Some? {
      KeyedExactlyWhen(raw, Parse(raw).value);
    }
  }

  lemma SameTextElsewhere(a: string, b: string)
    requires NormalizeEmail(a).Some? && NormalizeEmail(b).Some?
    requires NormalizeEmail(a).value.domain !in PLUS_ADDRESSING_DOMAINS
    ensures NormalizeEmail(a).value.key == NormalizeEmail(b).value.key <==> Lowered(Trim(a)) == Lowered(Trim(b))
  {
    var x, y := Parse(a).value, Parse(b).value;
    ParsesFolded(a, x);
    ParsesFolded(b, y);
    CanonicalIsFixed(x);
    CanonicalIsFixed(y);
    if Text(Canonical(x)) == Text(Canonical(y)) {
      TextIsInjective(Canonical(x), Canonical(y));
    }
  }

  /**
   Outside the listed providers two addresses share a key exactly when what was typed, without the
   white space around it, is the same up to the case of its letters.
   */
  lemma KeysAreInjectiveElsewhere(a: string, b: string, x: string, y: string)
    requires NormalizeEmail(a).Some? && NormalizeEmail(b).Some?
    requires NormalizeEmail(a).value.domain !in PLUS_ADDRESSING_DOMAINS
    requires TrimmedTo(a, x) && TrimmedTo(b, y)
    ensures NormalizeEmail(a).value.key == NormalizeEmail(b).value.key <==> SameUpToCase(x, y)
  {
    TrimIsCore(a, x);
    TrimIsCore(b, y);
    SameTextElsewhere(a, b);
    SameFold(x, y);
  }

  /** The providers whose addresses take tags, and those that ignore dots. */
  lemma ProvidersAre(domain: string)
    ensures IgnoresDots(domain) <==> domain == "gmail.com" || domain == "googlemail.com"
    ensures IgnoresTags(domain) <==>
            || domain == "gmail.com" || domain == "googlemail.com" || domain == "outlook.com"
            || domain == "hotmail.com" || domain == "live.com" || domain == "fastmail.com"
            || domain == "protonmail.com" || domain == "proton.me" || domain == "yahoo.com" || domain == "icloud.com"
  {
  }

  // ----- which spellings are one mailbox

  /** One provider rule applied once: a tag added, a dot put in, or the other name of the domain. */
  ghost predicate Respelled(a: Address, b: Address) {
    || (a.domain == b.domain && IgnoresTags(a.domain) && a.local != "" && '+' !in a.local
        && exists tag: string :: b.local == a.local + "+" + tag)
    || (a.domain == b.domain && IgnoresDots(a.domain) && exists k: nat :: Dotted(a.local, b.local, k))
    || (a.domain == "gmail.com" && b == Address(a.local, "googlemail.com"))
  }

  /** A dot put in anywhere but before a leading plus sign. */
  ghost predicate Dotted(a: string, b: string, k: nat) {
    k <= |a| && b == a[..k] + "." + a[k..] && !(k == 0 && a != "" && a[0] == '+')
  }

  /** Each spelling differs from the one before by one rule, in either direction. */
  ghost predicate Chain(spellings: seq<Address>) {
    forall i :: 0 <= i < |spellings| - 1 ==>
      Respelled(spellings[i], spellings[i + 1]) || Respelled(spellings[i + 1], spellings[i])
  }

  ghost predicate SameMailbox(a: Address, b: Address) {
    exists chain: seq<Address> :: Links(chain, a, b)
  }

  ghost predicate Links(chain: seq<Address>, a: Address, b: Address) {
    chain != [] && chain[0] == a && chain[|chain| - 1] == b && Chain(chain)
  }

  lemma DotLeaves(a: string, b: string, k: nat)
    requires Dotted(a, b, k)
    ensures '.' in b
  {
    assert b[k] == '.';
  }

  lemma TagLeaves(local: string, tag: string)
    requires local != "" && '+' !in local
    ensures !Plain(local + "+" + tag)
  {
    assert (local + "+" + tag)[|local|] == '+' && (local + "+" + tag)[0] == local[0];
  }

  lemma NothingIsPlainer(plainer: Address, address: Address)
    requires address.domain != "googlemail.com"
    requires IgnoresDots(address.domain) ==> '.' !in address.local
    requires IgnoresTags(address.domain) ==> Plain(address.local)
    ensures !Respelled(plainer, address)
  {
    forall k: nat | Dotted(plainer.local, address.local, k) ensures '.' in address.local {
      DotLeaves(plainer.local, address.local, k);
    }
    forall tag: string | address.local == plainer.local + "+" + tag && plainer.local != "" && '+' !in plainer.local
      ensures !Plain(address.local)
    {
      TagLeaves(plainer.local, tag);
    }
  }

  lemma PlainestLocal(address: Address)
    ensures IgnoresDots(address.domain) ==> '.' !in Canonical(address).local
    ensures IgnoresTags(address.domain) ==> Plain(Canonical(address).local)
  {
    UntaggedIsPlain(address.local);
    WithoutKeeps(Untagged(address.local), '.');
    WithoutKeepsOthers(Untagged(address.local), '.', '+');
  }

  lemma SameMailboxJoins(a: Address, b: Address, c: Address)
    requires SameMailbox(a, b) && SameMailbox(b, c)
    ensures SameMailbox(a, c)
  {
    var front :| Links(front, a, b);
    var back :| Links(back, b, c);
    var chain := front + back[1..];
    forall i | 0 <= i < |chain| - 1
      ensures Respelled(chain[i], chain[i + 1]) || Respelled(chain[i + 1], chain[i])
    {
      if i < |front| - 1 {
        assert chain[i] == front[i] && chain[i + 1] == front[i + 1];
      } else {
        assert chain[i] == back[i - |front| + 1] && chain[i + 1] == back[i - |front| + 2];
      }
    }
    assert Links(chain, a, c);
  }

  lemma SameMailboxTurns(a: Address, b: Address)
    requires SameMailbox(a, b)
    ensures SameMailbox(b, a)
  {
    var chain :| Links(chain, a, b);
    var back := seq(|chain|, i requires 0 <= i < |chain| => chain[|chain| - 1 - i]);
    forall i | 0 <= i < |back| - 1 ensures Respelled(back[i], back[i + 1]) || Respelled(back[i + 1], back[i]) {
      var j := |chain| - 2 - i;
      assert back[i] == chain[j + 1] && back[i + 1] == chain[j];
    }
    assert Links(back, b, a);
  }

  lemma OneRule(a: Address, b: Address)
    requires a == b || Respelled(a, b)
    ensures SameMailbox(a, b)
  {
    assert Links(if a == b then [a] else [a, b], a, b);
  }

  lemma FirstIsUnique(text: string, c: char, at: nat)
    requires at < |text| && text[at] == c && c !in text[..at]
    ensures IndexOf(text, c) == at
  {
    var found := IndexOf(text, c);
  }

  lemma {:induction false} WithoutJoins(front: string, back: string, c: char)
    ensures Without(front + back, c) == Without(front, c) + Without(back, c)
  {
    if front == "" {
      assert front + back == back;
    } else {
      assert (front + back)[1..] == front[1..] + back;
      WithoutJoins(front[1..], back, c);
    }
  }

  lemma HeadIsDropped(text: string, c: char)
    requires text != "" && text[0] == c
    ensures Without(text, c) == Without(text[1..], c)
  {
  }

  lemma OneIsDropped(front: string, back: string, c: char)
    ensures Without(front + [c] + back, c) == Without(front + back, c)
  {
    var tail := [c] + back;
    assert front + [c] + back == front + tail;
    WithoutJoins(front, tail, c);
    HeadIsDropped(tail, c);
    assert tail[1..] == back;
    WithoutJoins(front, back, c);
  }

  lemma DotIsIgnored(front: string, back: string)
    ensures Without(front + "." + back, '.') == Without(front + back, '.')
  {
    OneIsDropped(front, back, '.');
  }

  lemma TagIsCut(local: string, tag: string)
    requires local != "" && '+' !in local
    ensures Untagged(local) == local && Untagged(local + "+" + tag) == local
  {
    var text := local + "+" + tag;
    assert text[..|local|] == local;
    FirstIsUnique(text, '+', |local|);
  }

  lemma CutAt(front: string, back: string)
    requires front != "" && '+' !in front && back != "" && back[0] == '+'
    ensures Untagged(front + back) == front
  {
    assert (front + back)[..|front|] == front;
    FirstIsUnique(front + back, '+', |front|);
  }

  lemma DotBeforeTag(a: string, b: string, k: nat, plus: nat)
    requires Dotted(a, b, k) && k <= plus && 0 < plus == IndexOf(a, '+')
    ensures Without(Untagged(b), '.') == Without(Untagged(a), '.')
  {
    var front, middle, back := a[..k], a[k..plus], a[plus..];
    assert a[..plus] == front + middle;
    assert b == front + "." + middle + back;
    CutAt(front + "." + middle, back);
    DotIsIgnored(front, middle);
  }

  lemma DotInTag(a: string, b: string, k: nat, plus: nat)
    requires Dotted(a, b, k) && k > plus && 0 < plus == IndexOf(a, '+')
    ensures Untagged(b) == Untagged(a)
  {
    assert b[..plus] == a[..plus];
    FirstIsUnique(b, '+', plus);
  }

  lemma DotWithoutTag(a: string, b: string, k: nat)
    requires Dotted(a, b, k) && IndexOf(a, '+') <= 0
    ensures Untagged(a) == a && Untagged(b) == b && Without(b, '.') == Without(a, '.')
  {
    assert a == a[..k] + a[k..];
    DotIsIgnored(a[..k], a[k..]);
    if IndexOf(a, '+') == 0 {
      assert b[..0] == "";
      FirstIsUnique(b, '+', 0);
    } else {
      assert '+' !in b;
    }
  }

  lemma DottedUntags(a: string, b: string, k: nat)
    requires Dotted(a, b, k)
    ensures Without(Untagged(b), '.') == Without(Untagged(a), '.')
  {
    var plus := IndexOf(a, '+');
    if plus <= 0 {
      DotWithoutTag(a, b, k);
    } else if k <= plus {
      DotBeforeTag(a, b, k, plus);
    } else {
      DotInTag(a, b, k, plus);
    }
  }

  lemma ListedDomains(domain: string)
    ensures IgnoresDots(domain) ==> IgnoresTags(domain)
    ensures IgnoresTags(CanonicalDomain(domain)) == IgnoresTags(domain)
    ensures IgnoresDots(CanonicalDomain(domain)) == IgnoresDots(domain)
  {
  }

  lemma RuleKeepsCanonical(a: Address, b: Address)
    requires Respelled(a, b)
    ensures Canonical(a) == Canonical(b)
  {
    ListedDomains(a.domain);
    ListedDomains(b.domain);
    if a.domain != b.domain {
      assert CanonicalDomain(a.domain) == CanonicalDomain(b.domain);
    } else if IgnoresDots(a.domain) && exists k: nat :: Dotted(a.local, b.local, k) {
      var k: nat :| Dotted(a.local, b.local, k);
      DottedUntags(a.local, b.local, k);
    } else {
      var tag: string :| b.local == a.local + "+" + tag;
      TagIsCut(a.local, tag);
    }
  }

  lemma {:induction false} ChainKeepsCanonical(chain: seq<Address>)
    requires chain != [] && Chain(chain)
    ensures Canonical(chain[0]) == Canonical(chain[|chain| - 1])
  {
    if |chain| > 1 {
      var last := |chain| - 1;
      assert Respelled(chain[last - 1], chain[last]) || Respelled(chain[last], chain[last - 1]);
      if Respelled(chain[last - 1], chain[last]) {
        RuleKeepsCanonical(chain[last - 1], chain[last]);
      } else {
        RuleKeepsCanonical(chain[last], chain[last - 1]);
      }
      assert Chain(chain[..last]) by {
        forall i | 0 <= i < |chain[..last]| - 1
          ensures Respelled(chain[..last][i], chain[..last][i + 1]) || Respelled(chain[..last][i + 1], chain[..last][i])
        {
          assert Respelled(chain[i], chain[i + 1]) || Respelled(chain[i + 1], chain[i]);
        }
      }
      ChainKeepsCanonical(chain[..last]);
    }
  }

  /** Taking the first dot out is a rule applied backwards. */
  lemma FirstDotIsARule(local: string) returns (fewer: string)
    requires Plain(local) && '.' in local
    ensures |fewer| < |local| && Plain(fewer) && Without(fewer, '.') == Without(local, '.')
    ensures exists k: nat :: Dotted(fewer, local, k)
  {
    var k := IndexOf(local, '.');
    fewer := local[..k] + local[k + 1..];
    assert local == local[..k] + "." + local[k + 1..];
    DotIsIgnored(local[..k], local[k + 1..]);
    assert fewer[..k] == local[..k] && fewer[k..] == local[k + 1..];
    assert '+' in local ==> k > 0 && fewer[0] == '+';
    assert Dotted(fewer, local, k);
  }

  /** Every dot can be put back one at a time. */
  lemma {:induction false} DotsAreRules(local: string, domain: string)
    requires Plain(local) && IgnoresDots(domain)
    ensures SameMailbox(Address(Without(local, '.'), domain), Address(local, domain))
    decreases |local|
  {
    var whole := Address(local, domain);
    if '.' !in local {
      OneRule(whole, whole);
    } else {
      ListedDomains(domain);
      var fewer := FirstDotIsARule(local);
      DotsAreRules(fewer, domain);
      OneRule(Address(fewer, domain), whole);
      SameMailboxJoins(Address(Without(local, '.'), domain), Address(fewer, domain), whole);
    }
  }

  lemma MailboxReaches(local: string, domain: string)
    requires IgnoresDots(domain) ==> IgnoresTags(domain)
    ensures var untagged := if IgnoresTags(domain) then Untagged(local) else local;
            SameMailbox(Address(Mailbox(local, IgnoresTags(domain), IgnoresDots(domain)), domain),
                        Address(untagged, domain))
  {
    var untagged := if IgnoresTags(domain) then Untagged(local) else local;
    if IgnoresDots(domain) {
      UntaggedIsPlain(local);
      DotsAreRules(untagged, domain);
    } else {
      OneRule(Address(untagged, domain), Address(untagged, domain));
    }
  }

  lemma UntaggedReaches(local: string, domain: string)
    requires IgnoresTags(domain)
    ensures SameMailbox(Address(Untagged(local), domain), Address(local, domain))
  {
    var plus := IndexOf(local, '+');
    if plus > 0 {
      assert local == local[..plus] + "+" + local[plus + 1..];
    }
    OneRule(Address(Untagged(local), domain), Address(local, domain));
  }

  /** Every address is reached from its canonical form by the rules. */
  lemma CanonicalReaches(address: Address)
    ensures SameMailbox(Canonical(address), address)
  {
    var domain, local := CanonicalDomain(address.domain), address.local;
    var canonical, whole := Canonical(address), Address(local, domain);
    ListedDomains(address.domain);
    ListedDomains(domain);
    MailboxReaches(local, domain);
    if IgnoresTags(domain) {
      UntaggedReaches(local, domain);
      SameMailboxJoins(canonical, Address(Untagged(local), domain), whole);
    }
    OneRule(whole, address);
    SameMailboxJoins(canonical, whole, address);
  }

  /** A spelling of the mailbox that no rule leads to from a plainer one. */
  ghost predicate Plainest(plainest: Address, address: Address) {
    && WellFormed(plainest) && SameMailbox(plainest, address)
    && forall plainer :: !Respelled(plainer, plainest)
  }

  /** The key is the plainest spelling of the mailbox. */
  lemma KeyIsPlainest(raw: string, address: Address)
    requires Keyed(raw, address)
    ensures NormalizeEmail(raw).Some?
    ensures var email := NormalizeEmail(raw).value;
            exists plainest ::
              Plainest(plainest, address) && email.key == Text(plainest) && email.domain == plainest.domain
  {
    KeyedExactlyWhen(raw, address);
    var plainest := Canonical(address);
    ListedDomains(address.domain);
    PlainestLocal(address);
    CanonicalIsFixed(address);
    CanonicalReaches(address);
    forall plainer ensures !Respelled(plainer, plainest) {
      NothingIsPlainer(plainer, plainest);
    }
    assert Plainest(plainest, address);
  }

  /**
   Two addresses have the same key exactly when the provider rules turn one into the other: the
   key merges every spelling of one mailbox, and nothing else.
   */
  lemma SameKeyExactlyWhenSameMailbox(a: string, b: string, x: Address, y: Address)
    requires Keyed(a, x) && Keyed(b, y)
    ensures NormalizeEmail(a).Some? && NormalizeEmail(b).Some?
    ensures NormalizeEmail(a).value.key == NormalizeEmail(b).value.key <==> SameMailbox(x, y)
  {
    KeyedExactlyWhen(a, x);
    KeyedExactlyWhen(b, y);
    if NormalizeEmail(a).value.key == NormalizeEmail(b).value.key {
      CanonicalIsFixed(x);
      CanonicalIsFixed(y);
      TextIsInjective(Canonical(x), Canonical(y));
      CanonicalReaches(x);
      CanonicalReaches(y);
      SameMailboxTurns(Canonical(x), x);
      SameMailboxJoins(x, Canonical(x), y);
    }
    if SameMailbox(x, y) {
      var chain :| Links(chain, x, y);
      ChainKeepsCanonical(chain);
    }
  }
}
