/** The privacy scan of handoffctl.py: its cheap prefilters never change what the patterns find. */
module Privacy {
  import opened Common

  // ---- A small regular-expression semantics ---------------------------------

  /** The constructs that the patterns use; `Run` is a character class repeated between `lo` and `hi` times. */
  datatype Rx =
    | Lit(s: string, fold: bool)
    | Run(p: char -> bool, lo: nat, hi: Option<nat>)
    | Cat(a: Rx, b: Rx)
    | Alt(a: Rx, b: Rx)
    | Boundary

  function LowerChar(c: char): char {
    if 'A' <= c <= 'Z' then ((c as int) + 32) as char else c
  }

  function Lower(s: string): (r: string)
    ensures |r| == |s| && forall k :: 0 <= k < |s| ==> r[k] == LowerChar(s[k])
  {
    seq(|s|, k requires 0 <= k < |s| => LowerChar(s[k]))
  }

  predicate Word(c: char) {
    'a' <= c <= 'z' || 'A' <= c <= 'Z' || '0' <= c <= '9' || c == '_'
  }

  predicate WordAt(text: string, i: int) {
    0 <= i < |text| && Word(text[i])
  }

  /** The expression matches `text` from `i` up to `j`. */
  ghost predicate Ends(r: Rx, text: string, i: nat, j: nat)
    requires i <= j <= |text|
    decreases r
  {
    match r
    case Lit(s, fold) => if fold then Lower(text[i..j]) == Lower(s) else text[i..j] == s
    case Run(p, lo, hi) => lo <= j - i && (hi.Some? ==> j - i <= hi.value) && forall k :: i <= k < j ==> p(text[k])
    case Cat(a, b) => exists k: nat :: i <= k <= j && Ends(a, text, i, k) && Ends(b, text, k, j)
    case Alt(a, b) => Ends(a, text, i, j) || Ends(b, text, i, j)
    case Boundary => i == j && WordAt(text, i - 1) != WordAt(text, i)
  }

  /** `regex.search(text)`. */
  ghost predicate Searches(r: Rx, text: string) {
    exists i: nat, j: nat :: i <= j <= |text| && Ends(r, text, i, j)
  }

  // ---- The patterns ---------------------------------------------------------

  datatype Label = LinuxHome | WindowsUser | HostAlias | PrivateIp | Credential | PrivateKey | SessionUuid

  const ORDER: seq<Label> := [LinuxHome, WindowsUser, HostAlias, PrivateIp, Credential, PrivateKey, SessionUuid]

  /** Where a label comes in the report. */
  function Place(kind: Label): nat {
    match kind
    case LinuxHome => 0
    case WindowsUser => 1
    case HostAlias => 2
    case PrivateIp => 3
    case Credential => 4
    case PrivateKey => 5
    case SessionUuid => 6
  }

  predicate Letter(c: char) { 'a' <= c <= 'z' || 'A' <= c <= 'Z' }

  predicate Digit(c: char) { '0' <= c <= '9' }

  predicate Hex(c: char) { '0' <= c <= '9' || 'a' <= c <= 'f' || 'A' <= c <= 'F' }

  predicate Space(c: char) { c == ' ' || 9 <= c as int <= 13 || 28 <= c as int <= 31 }

  predicate Colon(c: char) { c == ':' || c == '=' }

  predicate SecretChar(c: char) { !Space(c) && c != '<' }

  predicate Joiner(c: char) { c == '_' || c == '-' }

  function Exactly(p: char -> bool, n: nat): Rx { Run(p, n, Some(n)) }

  function Octet(): Rx { Run(Digit, 1, Some(3)) }

  function OctetDot(): Rx { Cat(Octet(), Lit(".", false)) }

  function IpTail(): Rx { Cat(OctetDot(), Cat(OctetDot(), Cat(Octet(), Boundary))) }

  function IpHead(): Rx { Alt(Lit("10", false), Lit("127", false)) }

  function KeyTail(): Rx {
    Cat(Alt(Lit("OPENSSH", false), Alt(Lit("RSA", false), Alt(Lit("EC", false), Lit("DSA", false)))), Lit(" PRIVATE KEY-----", false))
  }

  function ApiKey(): Rx { Cat(Lit("api", true), Cat(Run(Joiner, 0, Some(1)), Lit("key", true))) }

  function CredentialTail(): Rx {
    Cat(Boundary, Cat(Run(Space, 0, None), Cat(Exactly(Colon, 1), Cat(Run(Space, 0, None), Run(SecretChar, 1, None)))))
  }

  function CredentialWord(): Rx {
    Alt(Lit("password", true), Alt(Lit("passwd", true), Alt(Lit("token", true), Alt(Lit("secret", true),
      ApiKey()))))
  }

  function HexThenHyphen(n: nat): Rx { Cat(Exactly(Hex, n), Lit("-", false)) }

  function Uuid(): Rx {
    Cat(HexThenHyphen(8), Cat(HexThenHyphen(4), Cat(HexThenHyphen(4), Cat(HexThenHyphen(4), Exactly(Hex, 12)))))
  }

  /** `PRIVATE`, on ASCII text. */
  function Pattern(kind: Label): Rx {
    match kind
    case LinuxHome => Lit("/" + "home/", false)
    case WindowsUser => Cat(Exactly(Letter, 1), Lit(":\\Users\\", true))
    case HostAlias => Cat(Boundary, Cat(Lit("ai" + "-ws", true), Boundary))
    case PrivateIp =>
      Cat(Boundary, Cat(IpHead(), Cat(Lit(".", false), IpTail())))
    case Credential =>
      Cat(Boundary, Cat(CredentialWord(), CredentialTail()))
    case PrivateKey =>
      Cat(Lit("-----BEGIN ", false), KeyTail())
    case SessionUuid => Cat(Boundary, Cat(Uuid(), Boundary))
  }

  predicate Ascii(text: string) {
    forall k :: 0 <= k < |text| ==> text[k] as int < 128
  }

  /** Whether a pattern is found; on text that is not ASCII the answer is whatever `unicode` says. */
  ghost predicate Found(kind: Label, text: string, unicode: (Label, string) -> bool) {
    if Ascii(text) then Searches(Pattern(kind), text) else unicode(kind, text)
  }

  // ---- The prefilters -------------------------------------------------------

  predicate OccursAt(text: string, s: string, i: int) {
    0 <= i <= |text| - |s| && text[i..i + |s|] == s
  }

  predicate Contains(text: string, s: string) {
    exists i :: 0 <= i <= |text| && OccursAt(text, s, i)
  }

  /** The shape that the hyphen scan looks for, seen from its first hyphen. */
  predicate UuidShape(text: string, h: int) {
    && 8 <= h && h + 28 <= |text|
    && text[h] == '-' && text[h + 5] == '-' && text[h + 10] == '-' && text[h + 15] == '-'
    && forall k :: h - 8 <= k < h ==> Hex(text[k])
  }

  /** `text.find("-", start)`; -1 when there is none. */
  method FindHyphen(text: string, start: nat) returns (at: int)
    ensures at == -1 || (start <= at < |text| && text[at] == '-')
    ensures forall k :: start <= k < (if at == -1 then |text| else at) ==> text[k] != '-'
  {
    var i := start;
    while i < |text|
      invariant start <= i
      invariant forall k :: start <= k < i && k < |text| ==> text[k] != '-'
    {
      if text[i] == '-' { return i; }
      i := i + 1;
    }
    return -1;
  }

  /** `possible_uuid_pattern`: the scan ends, and answers true exactly when the shape occurs. */
  method PossibleUuid(text: string) returns (possible: bool)
    ensures possible <==> exists h :: UuidShape(text, h)
  {
    if |text| < 36 { return false; }
    var hyphen := FindHyphen(text, 8);
    while hyphen >= 0
      invariant hyphen == -1 || (8 <= hyphen < |text| && text[hyphen] == '-')
      invariant forall h :: h < (if hyphen == -1 then |text| else hyphen) ==> !UuidShape(text, h)
      decreases if hyphen == -1 then 0 else |text| - hyphen
    {
      if hyphen + 28 <= |text| && text[hyphen + 5] == '-' && text[hyphen + 10] == '-' && text[hyphen + 15] == '-'
        && (forall k :: hyphen - 8 <= k < hyphen ==> Hex(text[k])) {
        assert UuidShape(text, hyphen);
        return true;
      }
      hyphen := FindHyphen(text, hyphen + 1);
    }
    return false;
  }

  /** `possible_privacy_pattern`. */
  method Possible(text: string, lowered: string, kind: Label) returns (possible: bool)
    requires lowered == Lower(text)
    ensures possible <==> Prefilter(text, kind)
  {
    if !Ascii(text) { return true; }
    match kind
    case LinuxHome => return Contains(text, "/" + "home/");
    case WindowsUser => return Contains(lowered, ":\\users\\");
    case HostAlias => return Contains(lowered, "ai" + "-ws");
    case PrivateIp => return Contains(text, "10.") || Contains(text, "127.");
    case Credential =>
      var words := ["password", "passwd", "token", "secret", "api_key", "api-key", "apikey"];
      return exists k :: 0 <= k < |words| && Contains(lowered, words[k]);
    case PrivateKey => return Contains(text, "-----BEGIN ");
    case SessionUuid => possible := PossibleUuid(text);
  }

  ghost predicate Prefilter(text: string, kind: Label) {
    !Ascii(text) ||
    match kind
    case LinuxHome => Contains(text, "/" + "home/")
    case WindowsUser => Contains(Lower(text), ":\\users\\")
    case HostAlias => Contains(Lower(text), "ai" + "-ws")
    case PrivateIp => Contains(text, "10.") || Contains(text, "127.")
    case Credential => exists k :: 0 <= k < |CREDENTIAL_WORDS| && Contains(Lower(text), CREDENTIAL_WORDS[k])
    case PrivateKey => Contains(text, "-----BEGIN ")
    case SessionUuid => exists h :: UuidShape(text, h)
  }

  const CREDENTIAL_WORDS: seq<string> := ["password", "passwd", "token", "secret", "api_key", "api-key", "apikey"]

  // ---- Every match has what its prefilter asks for --------------------------

  /** Where the two parts of a concatenation meet. */
  lemma Split(a: Rx, b: Rx, text: string, i: nat, j: nat) returns (k: nat)
    requires i <= j <= |text| && Ends(Cat(a, b), text, i, j)
    ensures i <= k <= j && Ends(a, text, i, k) && Ends(b, text, k, j)
  {
    k :| i <= k <= j && Ends(a, text, i, k) && Ends(b, text, k, j);
  }

  lemma Literal(s: string, text: string, i: nat, j: nat)
    requires i <= j <= |text| && Ends(Lit(s, false), text, i, j)
    ensures text[i..j] == s && Contains(text, s)
  {
    assert OccursAt(text, s, i);
  }

  lemma Folded(s: string, text: string, i: nat, j: nat)
    requires i <= j <= |text| && Ends(Lit(s, true), text, i, j)
    ensures Lower(text)[i..j] == Lower(s) && Contains(Lower(text), Lower(s))
  {
    assert Lower(text)[i..j] == Lower(text[i..j]);
    assert OccursAt(Lower(text), Lower(s), i);
  }

  const USERS: string := ":\\Users\\"

  lemma LowerUsers()
    ensures Lower(USERS) == ":\\users\\"
  {
    assert LowerChar('U') == 'u';
  }

  lemma UserFiltered(text: string, i: nat, j: nat)
    requires i <= j <= |text| && Ends(Pattern(WindowsUser), text, i, j)
    ensures Contains(Lower(text), ":\\users\\")
  {
    var k := Split(Exactly(Letter, 1), Lit(USERS, true), text, i, j);
    Folded(USERS, text, k, j);
    LowerUsers();
  }

  lemma AliasFiltered(text: string, i: nat, j: nat)
    requires i <= j <= |text| && Ends(Pattern(HostAlias), text, i, j)
    ensures Contains(Lower(text), "ai" + "-ws")
  {
    var alias := Lit("ai" + "-ws", true);
    var k := Split(Boundary, Cat(alias, Boundary), text, i, j);
    var m := Split(alias, Boundary, text, k, j);
    Folded("ai" + "-ws", text, k, m);
    assert Lower("ai" + "-ws") == "ai" + "-ws";
  }

  lemma IpFiltered(text: string, i: nat, j: nat)
    requires i <= j <= |text| && Ends(Pattern(PrivateIp), text, i, j)
    ensures Contains(text, "10.") || Contains(text, "127.")
  {
    var k := Split(Boundary, Cat(IpHead(), Cat(Lit(".", false), IpTail())), text, i, j);
    var m := Split(IpHead(), Cat(Lit(".", false), IpTail()), text, k, j);
    var n := Split(Lit(".", false), IpTail(), text, m, j);
    Literal(".", text, m, n);
    IpHeadThenDot(text, k, m, n);
  }

  lemma IpHeadThenDot(text: string, k: nat, m: nat, n: nat)
    requires k <= m <= n <= |text| && Ends(IpHead(), text, k, m) && text[m..n] == "."
    ensures Contains(text, "10.") || Contains(text, "127.")
  {
    assert text[k..n] == text[k..m] + text[m..n];
    if Ends(Lit("10", false), text, k, m) {
      Literal("10", text, k, m);
      assert OccursAt(text, "10.", k);
    } else {
      Literal("127", text, k, m);
      assert OccursAt(text, "127.", k);
    }
  }

  lemma KeyFiltered(text: string, i: nat, j: nat)
    requires i <= j <= |text| && Ends(Pattern(PrivateKey), text, i, j)
    ensures Contains(text, "-----BEGIN ")
  {
    var k := Split(Lit("-----BEGIN ", false), KeyTail(), text, i, j);
    Literal("-----BEGIN ", text, i, k);
  }

  ghost predicate HasCredentialWord(text: string) {
    exists k :: 0 <= k < |CREDENTIAL_WORDS| && Contains(Lower(text), CREDENTIAL_WORDS[k])
  }

  lemma PlainWord(text: string, i: nat, j: nat, k: nat)
    requires i <= j <= |text| && k < 4 && Ends(Lit(CREDENTIAL_WORDS[k], true), text, i, j)
    ensures HasCredentialWord(text)
  {
    Folded(CREDENTIAL_WORDS[k], text, i, j);
    assert Lower(CREDENTIAL_WORDS[k]) == CREDENTIAL_WORDS[k];
  }

  lemma WordFiltered(text: string, i: nat, j: nat)
    requires i <= j <= |text| && Ends(CredentialWord(), text, i, j)
    ensures HasCredentialWord(text)
  {
    if Ends(Lit("password", true), text, i, j) { PlainWord(text, i, j, 0); }
    else if Ends(Lit("passwd", true), text, i, j) { PlainWord(text, i, j, 1); }
    else if Ends(Lit("token", true), text, i, j) { PlainWord(text, i, j, 2); }
    else if Ends(Lit("secret", true), text, i, j) { PlainWord(text, i, j, 3); }
    else { ApiKeyFiltered(text, i, j); }
  }

  lemma ApiKeyFiltered(text: string, i: nat, j: nat)
    requires i <= j <= |text| && Ends(ApiKey(), text, i, j)
    ensures HasCredentialWord(text)
  {
    var k := Split(Lit("api", true), Cat(Run(Joiner, 0, Some(1)), Lit("key", true)), text, i, j);
    var m := Split(Run(Joiner, 0, Some(1)), Lit("key", true), text, k, j);
    Folded("api", text, i, k);
    Folded("key", text, m, j);
    JoinedKey(Lower(text), i, k, m, j, if m == k then [] else [text[k]]);
  }

  lemma JoinedKey(low: string, i: nat, k: nat, m: nat, j: nat, joiner: string)
    requires i <= k <= m <= j <= |low| && low[i..k] == Lower("api") && low[k..m] == joiner && low[m..j] == Lower("key")
    requires joiner == [] || joiner == "_" || joiner == "-"
    ensures exists n :: 0 <= n < |CREDENTIAL_WORDS| && Contains(low, CREDENTIAL_WORDS[n])
  {
    assert Lower("api") == "api" && Lower("key") == "key";
    assert low[i..j] == low[i..k] + low[k..m] + low[m..j];
    var n := if joiner == [] then 6 else if joiner == "_" then 4 else 5;
    assert low[i..j] == CREDENTIAL_WORDS[n];
    assert OccursAt(low, CREDENTIAL_WORDS[n], i);
  }

  lemma CredentialFiltered(text: string, i: nat, j: nat)
    requires i <= j <= |text| && Ends(Pattern(Credential), text, i, j)
    ensures HasCredentialWord(text)
  {
    var k := Split(Boundary, Cat(CredentialWord(), CredentialTail()), text, i, j);
    var m := Split(CredentialWord(), CredentialTail(), text, k, j);
    WordFiltered(text, k, m);
  }

  lemma HexHyphen(text: string, n: nat, i: nat, j: nat)
    requires i <= j <= |text| && Ends(HexThenHyphen(n), text, i, j)
    ensures j == i + n + 1 && text[i + n] == '-' && forall k :: i <= k < i + n ==> Hex(text[k])
  {
    var k := Split(Exactly(Hex, n), Lit("-", false), text, i, j);
    Literal("-", text, k, j);
    assert text[k..j][0] == '-';
  }

  lemma Group(rest: Rx, text: string, n: nat, i: nat, j: nat) returns (k: nat)
    requires i <= j <= |text| && Ends(Cat(HexThenHyphen(n), rest), text, i, j)
    ensures k == i + n + 1 <= j && text[i + n] == '-' && (forall m :: i <= m < i + n ==> Hex(text[m])) && Ends(rest, text, k, j)
  {
    k := Split(HexThenHyphen(n), rest, text, i, j);
    HexHyphen(text, n, i, k);
  }

  /** Four groups that end in hyphens, with any lengths of the first. */
  lemma FourGroups(text: string, first: nat, a: Rx, b: Rx, c: Rx, d: Rx, i: nat, j: nat)
    requires i <= j <= |text| && Ends(Cat(HexThenHyphen(first), a), text, i, j)
    requires a == Cat(HexThenHyphen(4), b) && b == Cat(HexThenHyphen(4), c) && c == Cat(HexThenHyphen(4), d)
    ensures i + first + 16 <= j && Ends(d, text, i + first + 16, j)
    ensures text[i + first] == '-' && text[i + first + 5] == '-' && text[i + first + 10] == '-' && text[i + first + 15] == '-'
    ensures forall m :: i <= m < i + first ==> Hex(text[m])
  {
    var k0 := Group(a, text, first, i, j);
    var k1 := Group(b, text, 4, k0, j);
    var k2 := Group(c, text, 4, k1, j);
    var k3 := Group(d, text, 4, k2, j);
  }

  /** A match of the UUID pattern from `i` shows the shape at its first hyphen. */
  lemma UuidHasShape(text: string, i: nat, j: nat)
    requires i <= j <= |text| && Ends(Uuid(), text, i, j)
    ensures j == i + 36 && UuidShape(text, i + 8)
  {
    FourGroups(text, 8, Uuid().b, Uuid().b.b, Uuid().b.b.b, Exactly(Hex, 12), i, j);
  }

  lemma UuidFiltered(text: string, i: nat, j: nat)
    requires i <= j <= |text| && Ends(Pattern(SessionUuid), text, i, j)
    ensures exists h :: UuidShape(text, h)
  {
    var k := Split(Boundary, Cat(Uuid(), Boundary), text, i, j);
    var m := Split(Uuid(), Boundary, text, k, j);
    UuidHasShape(text, k, m);
  }

  /** No prefilter rejects a text in which its pattern is found. */
  lemma PrefiltersAreNecessary(text: string, kind: Label, unicode: (Label, string) -> bool)
    requires Found(kind, text, unicode)
    ensures Prefilter(text, kind)
  {
    if Ascii(text) {
      var i: nat, j: nat :| i <= j <= |text| && Ends(Pattern(kind), text, i, j);
      match kind {
        case LinuxHome => Literal("/" + "home/", text, i, j);
        case WindowsUser => UserFiltered(text, i, j);
        case HostAlias => AliasFiltered(text, i, j);
        case PrivateIp => IpFiltered(text, i, j);
        case Credential => CredentialFiltered(text, i, j);
        case PrivateKey => KeyFiltered(text, i, j);
        case SessionUuid => UuidFiltered(text, i, j);
      }
    }
  }

  // ---- The scan -------------------------------------------------------------

  /** What running every applicable pattern would report, in the patterns' order. */
  ghost function Unfiltered(labels: seq<Label>, text: string, applies: Label -> bool, unicode: (Label, string) -> bool): seq<Label> {
    if labels == [] then []
    else
      var rest := Unfiltered(labels[..|labels| - 1], text, applies, unicode);
      var last := labels[|labels| - 1];
      if applies(last) && Found(last, text, unicode) then rest + [last] else rest
  }

  /** `private_text_errors`: for every text the prefiltered scan reports exactly what all patterns would; `search` is the regex engine. */
  method PrivateTextErrors(text: string, applies: Label -> bool, search: (Label, string) -> bool, ghost unicode: (Label, string) -> bool)
    returns (errors: seq<Label>)
    requires forall kind :: search(kind, text) <==> Found(kind, text, unicode)
    ensures errors == Unfiltered(ORDER, text, applies, unicode)
    ensures forall kind :: kind in errors <==> applies(kind) && Found(kind, text, unicode)
    ensures forall i, j :: 0 <= i < j < |errors| ==> Place(errors[i]) < Place(errors[j])
  {
    var lowered := Lower(text);
    errors := [];
    for i := 0 to |ORDER|
      invariant errors == Unfiltered(ORDER[..i], text, applies, unicode)
      invariant forall kind :: kind in errors <==> Place(kind) < i && applies(kind) && Found(kind, text, unicode)
      invariant forall a, b :: 0 <= a < b < |errors| ==> Place(errors[a]) < Place(errors[b])
    {
      var kind := ORDER[i];
      assert Place(kind) == i && forall other :: Place(other) == i ==> other == kind;
      assert ORDER[..i + 1][..i] == ORDER[..i];
      if applies(kind) {
        var possible := Possible(text, lowered, kind);
        if Found(kind, text, unicode) { PrefiltersAreNecessary(text, kind, unicode); }
        if possible && search(kind, text) {
          errors := errors + [kind];
        }
      }
    }
    assert ORDER[..|ORDER|] == ORDER;
  }
}
