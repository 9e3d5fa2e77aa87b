/** The environment's token list: `org:token@role` entries separated by commas. */
module EnvEntries {
  import opened Common

  datatype Role = Viewer | Developer | Admin

  const DEFAULT_ORG: string := "default"

  const LEGACY_ROLE: Role := Admin

  datatype Parsed = Parsed(org: string, token: string, role: Role)

  // ---- Text --------------------------------------------------------------------------

  /** The Unicode White_Space characters, which trimming removes. */
  predicate IsSpace(c: char) {
    || '\U{0009}' <= c <= '\U{000D}' || c == ' ' || c == '\U{0085}' || c == '\U{00A0}' || c == '\U{1680}'
    || '\U{2000}' <= c <= '\U{200A}' || c == '\U{2028}' || c == '\U{2029}' || c == '\U{202F}'
    || c == '\U{205F}' || c == '\U{3000}'
  }

  predicate Trimmed(s: string) {
    s == "" || (!IsSpace(s[0]) && !IsSpace(s[|s| - 1]))
  }

  function Trim(s: string): (t: string)
    ensures Trimmed(t)
    ensures Trimmed(s) ==> t == s
    ensures |t| <= |s|
  {
    if s == "" then s
    else if IsSpace(s[0]) then Trim(s[1..])
    else if IsSpace(s[|s| - 1]) then Trim(s[..|s| - 1])
    else s
  }

  function Lower(s: string): (t: string)
    ensures |t| == |s|
    ensures forall i :: 0 <= i < |s| ==> t[i] == LowerChar(s[i])
  {
    if s == "" then "" else [LowerChar(s[0])] + Lower(s[1..])
  }

  /** Where a character first occurs, or the length if it does not. */
  function First(s: string, c: char): (i: nat)
    ensures i <= |s|
    ensures forall k :: 0 <= k < i ==> s[k] != c
    ensures i < |s| ==> s[i] == c
  {
    if s == "" || s[0] == c then 0 else 1 + First(s[1..], c)
  }

  /** Where a character last occurs, or -1. */
  function Last(s: string, c: char): (i: int)
    ensures -1 <= i < |s|
    ensures forall k :: i < k < |s| ==> s[k] != c
    ensures i >= 0 ==> s[i] == c
  {
    if s == "" then -1
    else if s[|s| - 1] == c then |s| - 1
    else Last(s[..|s| - 1], c)
  }

  // ---- Roles -------------------------------------------------------------------------

  function RoleName(r: Role): string {
    match r
    case Admin => "admin"
    case Developer => "developer"
    case Viewer => "viewer"
  }

  /** A lower-case name or alias of a role. */
  function KnownRole(t: string): Option<Role> {
    if t == "admin" then Some(Admin)
    else if t == "developer" || t == "dev" then Some(Developer)
    else if t == "viewer" || t == "readonly" || t == "read-only" then Some(Viewer)
    else None
  }

  function ParseRole(s: string): Option<Role> {
    KnownRole(Lower(Trim(s)))
  }

  // ---- One entry ---------------------------------------------------------------------

  /** Splits off a trailing `@role`; an unknown tail is part of the token. */
  function SplitRoleSuffix(entry: string): (string, Role) {
    var i := Last(entry, '@');
    if i < 0 then (entry, LEGACY_ROLE)
    else
      match ParseRole(entry[i + 1..])
      case Some(role) => (entry[..i], role)
      case None => (entry, LEGACY_ROLE)
  }

  function NormalizeOrg(s: string): string {
    var t := Trim(s);
    if t == "" then DEFAULT_ORG else t
  }

  function SplitOrg(body: string, role: Role): Parsed {
    var i := First(body, ':');
    if i < |body| then Parsed(NormalizeOrg(body[..i]), Trim(body[i + 1..]), role)
    else Parsed(DEFAULT_ORG, Trim(body), role)
  }

  function ParseEntry(entry: string): Parsed {
    var (body, role) := SplitRoleSuffix(Trim(entry));
    SplitOrg(body, role)
  }

  /** An org that survives printing: trimmed, non-empty, without a colon. */
  predicate PlainOrg(org: string) {
    org != "" && Trimmed(org) && ':' !in org
  }

  predicate PlainToken(token: string) {
    token != "" && Trimmed(token)
  }

  lemma SplitOrgUndoesPrint(org: string, token: string, role: Role)
    requires PlainOrg(org) && PlainToken(token)
    ensures SplitOrg(org + ":" + token, role) == Parsed(org, token, role)
  {
    var body := org + ":" + token;
    assert body[|org|] == ':';
    assert forall k :: 0 <= k < |org| ==> body[k] == org[k];
    assert First(body, ':') == |org|;
    assert body[..|org|] == org && body[|org| + 1..] == token;
  }

  lemma JoinedIsTrimmed(org: string, token: string)
    requires PlainOrg(org) && PlainToken(token)
    ensures Trimmed(org + ":" + token)
  {
    var body := org + ":" + token;
    assert body[0] == org[0] && body[|body| - 1] == token[|token| - 1];
  }

  /** A role's name holds no separator. */
  lemma RoleTextIsPlain(tail: string)
    requires ParseRole(tail).Some? && Trimmed(tail)
    ensures tail != "" && '@' !in tail && ':' !in tail && ',' !in tail
  {
    assert Trim(tail) == tail;
    var low := Lower(tail);
    assert '@' !in low && ':' !in low && ',' !in low && low != "" by {
      KnownRoleIsPlain(low);
    }
    forall i | 0 <= i < |tail| ensures tail[i] != '@' && tail[i] != ':' && tail[i] != ',' {
      assert low[i] == LowerChar(tail[i]);
      assert low[i] in low;
    }
  }

  lemma KnownRoleIsPlain(t: string)
    requires KnownRole(t).Some?
    ensures t != "" && '@' !in t && ':' !in t && ',' !in t
  {
  }

  /** A role written with any spelling the parser knows comes off the right end, whatever
      the token contains. */
  lemma SuffixUndoesPrint(body: string, tail: string)
    requires ParseRole(tail).Some? && Trimmed(tail)
    ensures SplitRoleSuffix(body + "@" + tail) == (body, ParseRole(tail).value)
  {
    hide ParseRole;
    RoleTextIsPlain(tail);
    LastBeforeTail(body, tail);
    var entry := body + "@" + tail;
    assert entry[..|body|] == body && entry[|body| + 1..] == tail;
  }

  lemma {:induction false} LastBeforeTail(body: string, tail: string)
    requires '@' !in tail
    ensures Last(body + "@" + tail, '@') == |body|
  {
    hide Last;
    var head := body + "@";
    var entry := head + tail;
    assert entry[|body|] == head[|body|] == '@';
    forall k | |body| < k < |entry| ensures entry[k] != '@' {
      assert entry[k] == tail[k - |head|];
      assert tail[k - |head|] in tail;
    }
    LastIs(entry, '@', |body|);
  }

  lemma {:induction false} LastIs(s: string, c: char, i: nat)
    requires i < |s| && s[i] == c && forall k :: i < k < |s| ==> s[k] != c
    ensures Last(s, c) == i
  {
  }

  /** Printing `org:token@role` and parsing gives the same three parts back, for every
      plain org and token, colons and at-signs in the token included, and for every
      spelling of the role. */
  lemma {:induction false} EntryRoundTrip(org: string, token: string, tail: string)
    requires PlainOrg(org) && PlainToken(token) && ParseRole(tail).Some? && Trimmed(tail)
    ensures ParseEntry(org + ":" + token + "@" + tail) == Parsed(org, token, ParseRole(tail).value)
  {
    var body := org + ":" + token;
    var entry := body + "@" + tail;
    RoleTextIsPlain(tail);
    assert Trimmed(entry) by {
      JoinedIsTrimmed(org, token);
      assert entry[0] == body[0] && entry[|entry| - 1] == tail[|tail| - 1];
    }
    SuffixUndoesPrint(body, tail);
    SplitOrgUndoesPrint(org, token, ParseRole(tail).value);
    hide ParseRole, SplitOrg, SplitRoleSuffix;
  }

  lemma RoleNameParses(r: Role)
    ensures Trimmed(RoleName(r)) && ParseRole(RoleName(r)) == Some(r)
  {
    var t := RoleName(r);
    assert Trimmed(t) && Letters(t) && KnownRole(t) == Some(r);
    hide Trimmed, RoleName, KnownRole;
    LettersAreLower(t);
  }

  predicate Letters(t: string) {
    forall i :: 0 <= i < |t| ==> 'a' <= t[i] <= 'z'
  }

  lemma LettersAreLower(t: string)
    requires Letters(t)
    ensures Lower(t) == t
  {
  }

  /** The token's text after its last at-sign names a role. */
  predicate EndsInRole(token: string) {
    var i := Last(token, '@');
    i >= 0 && ParseRole(token[i + 1..]).Some?
  }

  lemma LastThroughPrefix(prefix: string, token: string)
    ensures Last(token, '@') >= 0 ==> Last(prefix + token, '@') == |prefix| + Last(token, '@')
    ensures Last(token, '@') < 0 ==> Last(prefix + token, '@') < |prefix|
  {
    var s := prefix + token;
    forall k | |prefix| <= k < |s| ensures s[k] == token[k - |prefix|] {
    }
    var i := Last(token, '@');
    if i >= 0 {
      assert s[|prefix| + i] == '@';
    }
  }

  /** A known role name holds no colon, trimmed or not. */
  lemma {:induction false} ColonIsNoRole(s: string)
    requires ':' in s
    ensures ParseRole(s).None?
  {
    TrimKeepsColon(s);
    var t := Trim(s);
    var i :| 0 <= i < |t| && t[i] == ':';
    assert Lower(t)[i] == ':';
    if KnownRole(Lower(t)).Some? {
      KnownRoleIsPlain(Lower(t));
    }
  }

  lemma {:induction false} TrimKeepsColon(s: string)
    requires ':' in s
    ensures ':' in Trim(s)
    decreases |s|
  {
    var i :| 0 <= i < |s| && s[i] == ':';
    if IsSpace(s[0]) {
      assert s[1..][i - 1] == ':';
      TrimKeepsColon(s[1..]);
    } else if IsSpace(s[|s| - 1]) {
      assert s[..|s| - 1][i] == ':';
      TrimKeepsColon(s[..|s| - 1]);
    }
  }

  /** Splitting the suffix off `org:token` looks only at the token. */
  lemma {:induction false} SuffixOfBareEntry(org: string, token: string)
    requires ':' !in org
    ensures var i := Last(token, '@');
            SplitRoleSuffix(org + ":" + token) ==
            (if EndsInRole(token) then (org + ":" + token[..i], ParseRole(token[i + 1..]).value)
             else (org + ":" + token, LEGACY_ROLE))
  {
    hide ParseRole;
    var prefix := org + ":";
    var entry := prefix + token;
    assert entry == org + ":" + token;
    LastThroughPrefix(prefix, token);
    var i := Last(token, '@');
    if i >= 0 {
      assert entry[|prefix| + i + 1..] == token[i + 1..];
      assert entry[..|prefix| + i] == prefix + token[..i];
    } else if Last(entry, '@') >= 0 {
      var k := Last(entry, '@');
      assert entry[|org|] == ':' && k < |org|;
      assert entry[k + 1..][|org| - k - 1] == ':';
      ColonIsNoRole(entry[k + 1..]);
    }
  }

  /** Without a written role, `org:token` parses to itself with the legacy role if and only
      if the token does not itself end in `@` and a role name. */
  lemma {:induction false} BareEntryRoundTrip(org: string, token: string)
    requires PlainOrg(org) && PlainToken(token)
    ensures ParseEntry(org + ":" + token) == Parsed(org, token, LEGACY_ROLE) <==> !EndsInRole(token)
  {
    JoinedIsTrimmed(org, token);
    SuffixOfBareEntry(org, token);
    SplitOrgUndoesPrint(org, token, LEGACY_ROLE);
    var i := Last(token, '@');
    if EndsInRole(token) {
      BodyLosesTheSuffix(org, token[..i], ParseRole(token[i + 1..]).value, token);
    }
    hide ParseRole, SplitOrg, SplitRoleSuffix;
  }

  const SECRET: string := "hunter2@admin"

  /** The secret `hunter2@admin` loses its tail, which is read as a role. */
  lemma {:induction false} SecretEndingInARole()
    ensures PlainOrg("acme") && PlainToken(SECRET) && EndsInRole(SECRET)
    ensures ParseEntry("acme:" + SECRET) == Parsed("acme", "hunter2", Admin)
  {
    hide ParseEntry, ParseRole, Last, RoleName;
    RoleNameParses(Admin);
    SecretSplits();
    assert RoleName(Admin) == "admin" by { SecretRole(); }
    EntryRoundTrip("acme", "hunter2", "admin");
  }

  lemma SecretRole()
    ensures RoleName(Admin) == "admin"
  {
  }

  lemma {:induction false} SecretSplits()
    ensures PlainOrg("acme") && PlainToken(SECRET) && PlainToken("hunter2")
    ensures Last(SECRET, '@') == 7 && SECRET[8..] == "admin"
    ensures "acme:" + SECRET == "acme" + ":" + "hunter2" + "@" + "admin"
  {
    hide Last;
    assert SECRET == "hunter2" + "@" + "admin";
    LastBeforeTail("hunter2", "admin");
  }

  lemma BodyLosesTheSuffix(org: string, shorter: string, role: Role, token: string)
    requires PlainOrg(org) && |shorter| < |token|
    ensures SplitOrg(org + ":" + shorter, role).token != token
  {
    var body := org + ":" + shorter;
    assert body[|org|] == ':';
    assert forall k :: 0 <= k < |org| ==> body[k] == org[k];
    assert First(body, ':') == |org|;
    assert body[|org| + 1..] == shorter;
  }

  // ---- The legacy forms ------------------------------------------------------------------

  /** Which spellings name which role, in any letter case and with spaces around. */
  lemma {:induction false} RoleSpellings(s: string)
    ensures ParseRole(s) == Some(Admin) <==> Lower(Trim(s)) == "admin"
    ensures ParseRole(s) == Some(Developer) <==> Lower(Trim(s)) in ["developer", "dev"]
    ensures ParseRole(s) == Some(Viewer) <==> Lower(Trim(s)) in ["viewer", "readonly", "read-only"]
  {
  }

  lemma {:induction false} DevIsDeveloper()
    ensures ParseRole("dev") == Some(Developer) && ParseRole("DEV") == Some(Developer)
  {
    assert Trimmed("dev") && Lower("dev") == "dev";
    assert Trimmed("DEV") && Lower("DEV") == "dev";
  }

  lemma {:induction false} ReadonlyIsViewer()
    ensures ParseRole("readonly") == Some(Viewer)
  {
    assert Trimmed("readonly") && Lower("readonly") == "readonly";
  }

  lemma {:induction false} ReadDashOnlyIsViewer()
    ensures ParseRole("read-only") == Some(Viewer)
  {
    assert Trimmed("read-only") && Lower("read-only") == "read-only";
  }

  /** A token on its own belongs to the default org, as admin or in the role written. */
  lemma {:induction false} BareTokenParses(token: string, tail: string)
    requires PlainToken(token) && ':' !in token
    requires ParseRole(tail).Some? && Trimmed(tail)
    ensures !EndsInRole(token) ==> ParseEntry(token) == Parsed("default", token, Admin)
    ensures ParseEntry(token + "@" + tail) == Parsed("default", token, ParseRole(tail).value)
  {
    hide ParseRole;
    assert First(token, ':') == |token|;
    RoleTextIsPlain(tail);
    SuffixUndoesPrint(token, tail);
    var entry := token + "@" + tail;
    assert entry[0] == token[0] && entry[|entry| - 1] == tail[|tail| - 1];
  }

  /** An entry with an empty org is one of the default org. */
  lemma {:induction false} EmptyOrgIsDefault(token: string)
    requires PlainToken(token) && !EndsInRole(token)
    ensures ParseEntry(":" + token) == Parsed("default", token, Admin)
  {
    hide ParseRole;
    var entry := ":" + token;
    assert entry == "" + ":" + token;
    SuffixOfBareEntry("", token);
    assert entry[0] == ':' && entry[|entry| - 1] == token[|token| - 1];
    assert Trimmed(entry);
    assert First(entry, ':') == 0 && entry[..0] == "" && entry[1..] == token;
  }

  /** White space around an entry changes nothing. */
  lemma {:induction false} PaddingIsIgnored(before: string, entry: string, after: string)
    requires forall i :: 0 <= i < |before| ==> IsSpace(before[i])
    requires forall i :: 0 <= i < |after| ==> IsSpace(after[i])
    ensures Trim(before + entry + after) == Trim(entry)
    ensures ParseEntry(before + entry + after) == ParseEntry(entry)
  {
    hide SplitRoleSuffix, SplitOrg, Trim, IsSpace;
    TrimmedPadding(before, entry, after);
  }

  lemma CommonSpaces()
    ensures IsSpace(' ') && IsSpace('\t') && IsSpace('\n') && IsSpace('\r')
  {
  }

  lemma {:induction false} TrimmedPadding(before: string, entry: string, after: string)
    requires forall i :: 0 <= i < |before| ==> IsSpace(before[i])
    requires forall i :: 0 <= i < |after| ==> IsSpace(after[i])
    ensures Trim(before + entry + after) == Trim(entry)
    decreases |before| + |after|
  {
    hide IsSpace;
    var all := before + entry + after;
    if before != "" {
      assert all[1..] == before[1..] + entry + after;
      TrimmedPadding(before[1..], entry, after);
    } else if after != "" {
      assert all == entry + after && all[..|all| - 1] == before + entry + after[..|after| - 1];
      TrimmedPadding(before, entry, after[..|after| - 1]);
      TrimAtTheEnd(entry + after);
    } else {
      assert all == entry;
    }
  }

  predicate AllSpace(s: string) {
    forall i :: 0 <= i < |s| ==> IsSpace(s[i])
  }

  /** Nor does white space around the colon, or before the role. */
  lemma {:induction false} InnerPaddingIsIgnored(org: string, a: string, b: string, token: string, c: string,
                                                 tail: string)
    requires PlainOrg(org) && PlainToken(token) && AllSpace(a) && AllSpace(b) && AllSpace(c)
    requires ParseRole(tail).Some? && Trimmed(tail)
    ensures ParseEntry(org + a + ":" + b + token + c + "@" + tail) == Parsed(org, token, ParseRole(tail).value)
  {
    hide ParseRole, Trim, IsSpace;
    var body := org + a + ":" + b + token + c;
    var entry := body + "@" + tail;
    RoleTextIsPlain(tail);
    assert entry[0] == org[0] && entry[|entry| - 1] == tail[|tail| - 1];
    assert Trimmed(entry);
    SuffixUndoesPrint(body, tail);
    ColonAfter(org, a, b + token + c);
    assert body == (org + a) + ":" + (b + token + c);
    TrimmedPadding("", org, a);
    TrimmedPadding(b, token, c);
    assert "" + org + a == org + a;
    hide SplitRoleSuffix;
  }

  lemma {:induction false} ColonAfter(org: string, a: string, rest: string)
    requires ':' !in org && AllSpace(a)
    ensures var body := (org + a) + ":" + rest;
            var i := First(body, ':');
            i == |org + a| && body[..i] == org + a && body[i + 1..] == rest
  {
    var head := org + a;
    var body := head + ":" + rest;
    forall k | 0 <= k < |head| ensures body[k] != ':' {
      assert body[k] == head[k];
    }
    assert body[|head|] == ':';
  }

  lemma {:induction false} TrimAtTheEnd(s: string)
    requires s != "" && IsSpace(s[|s| - 1])
    ensures Trim(s) == Trim(s[..|s| - 1])
    decreases |s|
  {
    if IsSpace(s[0]) {
      if |s| > 1 {
        assert s[1..][..|s| - 2] == s[..|s| - 1][1..];
        TrimAtTheEnd(s[1..]);
      }
    }
  }

  // ---- The list ----------------------------------------------------------------------

  datatype Account = Account(org: string, role: Role)

  /** The parts of a string between commas: always at least one. */
  function Split(s: string): (parts: seq<string>)
    ensures |parts| >= 1
    decreases |s|
  {
    var i := First(s, ',');
    if i == |s| then [s] else [s[..i]] + Split(s[i + 1..])
  }

  function Join(parts: seq<string>): string {
    if parts == [] then ""
    else if |parts| == 1 then parts[0]
    else parts[0] + "," + Join(parts[1..])
  }

  /** One part of the list: blank parts and parts with an empty token add nothing. */
  function LoadPart(m: map<string, Account>, part: string): map<string, Account> {
    if Trim(part) == "" then m
    else
      var p := ParseEntry(Trim(part));
      if p.token == "" then m else m[p.token := Account(p.org, p.role)]
  }

  /** Blank parts, and parts whose token is empty, add nothing. */
  lemma {:induction false} EmptyPartsAreDropped(m: map<string, Account>, blank: string, org: string)
    requires AllSpace(blank) && PlainOrg(org) && '@' !in org
    ensures LoadPart(m, blank) == m && LoadPart(m, org + ":") == m
  {
    TrimmedPadding(blank, "", "");
    assert blank + "" + "" == blank;
    var part := org + ":";
    assert part[0] == org[0] && part[|part| - 1] == ':';
    assert Trimmed(part);
    forall k | 0 <= k < |part| ensures part[k] != '@' {
      assert k < |org| ==> part[k] == org[k];
    }
    assert Last(part, '@') == -1;
    ColonAfter(org, "", "");
    assert (org + "") + ":" + "" == part;
  }

  function LoadParts(m: map<string, Account>, parts: seq<string>): map<string, Account>
    decreases |parts|
  {
    if parts == [] then m else LoadParts(LoadPart(m, parts[0]), parts[1..])
  }

  /** Reads the whole list, later duplicates replacing earlier ones. */
  method FromCsv(s: string) returns (byToken: map<string, Account>)
    ensures byToken == LoadParts(map[], Split(s))
  {
    byToken := map[];
    var parts := Split(s);
    var i := 0;
    while i < |parts|
      invariant 0 <= i <= |parts|
      invariant LoadParts(byToken, parts[i..]) == LoadParts(map[], parts)
    {
      hide ParseEntry, Trim;
      assert parts[i..][1..] == parts[i + 1..];
      var trimmed := Trim(parts[i]);
      if trimmed != "" {
        var p := ParseEntry(trimmed);
        if p.token != "" {
          byToken := byToken[p.token := Account(p.org, p.role)];
        }
      }
      i := i + 1;
    }
  }

  lemma {:induction false} SplitUndoesJoin(parts: seq<string>)
    requires parts != [] && forall i :: 0 <= i < |parts| ==> ',' !in parts[i]
    ensures Split(Join(parts)) == parts
    decreases |parts|
  {
    var s := Join(parts);
    var head := parts[0];
    if |parts| == 1 {
      assert First(s, ',') == |s|;
    } else {
      var rest := Join(parts[1..]);
      assert s[|head|] == ',';
      assert forall k :: 0 <= k < |head| ==> s[k] == head[k];
      assert First(s, ',') == |head|;
      assert s[..|head|] == head && s[|head| + 1..] == rest;
      SplitUndoesJoin(parts[1..]);
    }
  }

  function PrintEntry(p: Parsed): string {
    p.org + ":" + p.token + "@" + RoleName(p.role)
  }

  predicate Printable(p: Parsed) {
    PlainOrg(p.org) && PlainToken(p.token) && ',' !in p.org && ',' !in p.token
  }

  /** The entries as a map, the last entry for a token winning. */
  function LastWins(ps: seq<Parsed>): map<string, Account> {
    if ps == [] then map[]
    else
      var p := ps[|ps| - 1];
      LastWins(ps[..|ps| - 1])[p.token := Account(p.org, p.role)]
  }

  lemma {:induction false} PrintedIsPlain(p: Parsed)
    requires Printable(p)
    ensures ',' !in PrintEntry(p) && PrintEntry(p) != "" && Trimmed(PrintEntry(p))
  {
    RoleNameParses(p.role);
    RoleTextIsPlain(RoleName(p.role));
    var s := PrintEntry(p);
    JoinedIsTrimmed(p.org, p.token);
    var body := p.org + ":" + p.token;
    assert s[0] == body[0] && s[|s| - 1] == RoleName(p.role)[|RoleName(p.role)| - 1];
  }

  lemma {:induction false} PrintedLoads(m: map<string, Account>, p: Parsed)
    requires Printable(p)
    ensures LoadPart(m, PrintEntry(p)) == m[p.token := Account(p.org, p.role)]
  {
    PrintedIsPlain(p);
    RoleNameParses(p.role);
    EntryRoundTrip(p.org, p.token, RoleName(p.role));
    hide ParseEntry, RoleName;
  }

  lemma {:induction false} LoadPartsAppend(m: map<string, Account>, parts: seq<string>, last: string)
    ensures LoadParts(m, parts + [last]) == LoadPart(LoadParts(m, parts), last)
    decreases |parts|
  {
    hide LoadPart;
    if parts == [] {
      assert LoadParts(LoadPart(m, last), []) == LoadPart(m, last);
      assert ([last])[1..] == [];
    } else {
      assert (parts + [last])[1..] == parts[1..] + [last];
      LoadPartsAppend(LoadPart(m, parts[0]), parts[1..], last);
    }
  }

  lemma {:induction false} PrintedPartsLoad(ps: seq<Parsed>, parts: seq<string>)
    requires |parts| == |ps| && forall i :: 0 <= i < |ps| ==> Printable(ps[i]) && parts[i] == PrintEntry(ps[i])
    ensures LoadParts(map[], parts) == LastWins(ps)
    decreases |ps|
  {
    hide LoadPart, Printable, PrintEntry;
    if ps != [] {
      var n := |ps| - 1;
      PrintedPartsLoad(ps[..n], parts[..n]);
      assert parts == parts[..n] + [parts[n]];
      LoadPartsAppend(map[], parts[..n], parts[n]);
      PrintedLoads(LoadParts(map[], parts[..n]), ps[n]);
    }
  }

  /** A comma-joined list of printed entries loads to the last-wins map of the entries. */
  lemma {:induction false} ListRoundTrip(ps: seq<Parsed>, parts: seq<string>)
    requires |parts| == |ps| && forall i :: 0 <= i < |ps| ==> Printable(ps[i]) && parts[i] == PrintEntry(ps[i])
    ensures LoadParts(map[], Split(Join(parts))) == LastWins(ps)
  {
    if ps == [] {
      assert First("", ',') == 0;
      assert Split("") == [""];
      assert LoadPart(map[], "") == map[];
      assert ([""])[1..] == [];
    } else {
      forall i | 0 <= i < |parts| ensures ',' !in parts[i] {
        PrintedIsPlain(ps[i]);
      }
      SplitUndoesJoin(parts);
      PrintedPartsLoad(ps, parts);
    }
  }

  /** The last-wins map is the one in which each token has the account of its last entry. */
  lemma {:induction false} LastWinsMeans(ps: seq<Parsed>, token: string)
    ensures token in LastWins(ps) <==> exists i :: 0 <= i < |ps| && ps[i].token == token
    ensures forall i :: 0 <= i < |ps| && ps[i].token == token && (forall j :: i < j < |ps| ==> ps[j].token != token)
                        ==> token in LastWins(ps) && LastWins(ps)[token] == Account(ps[i].org, ps[i].role)
    decreases |ps|
  {
    if ps != [] {
      var n := |ps| - 1;
      LastWinsMeans(ps[..n], token);
      assert forall i :: 0 <= i < n ==> ps[..n][i] == ps[i];
      if token in LastWins(ps) {
        if ps[n].token == token {
          assert exists i :: 0 <= i < |ps| && ps[i].token == token;
        } else {
          var i :| 0 <= i < n && ps[..n][i].token == token;
          assert ps[i].token == token;
        }
      }
    }
  }
}
