/** Canonical form of what a user types for a channel. The three link patterns are
    searched leftmost, ignoring case; characters are taken to be ASCII. */
module Identifiers {
  import opened Common
  import opened Decimal

  function LowerChar(c: char): char {
    if 'A' <= c <= 'Z' then (c as int + 32) as char else c
  }

  function Lower(s: string): (r: string)
    ensures |r| == |s|
    ensures forall i :: 0 <= i < |s| ==> r[i] == LowerChar(s[i])
  {
    if s == [] then [] else [LowerChar(s[0])] + Lower(s[1..])
  }

  predicate IsSpace(c: char) {
    c == ' ' || 9 <= c as int <= 13 || 28 <= c as int <= 31
  }

  function StripLeft(s: string): string {
    if s != [] && IsSpace(s[0]) then StripLeft(s[1..]) else s
  }

  function StripRight(s: string): string {
    if s != [] && IsSpace(s[|s| - 1]) then StripRight(s[..|s| - 1]) else s
  }

  function Strip(s: string): string {
    StripRight(StripLeft(s))
  }

  predicate IsWordChar(c: char) {
    'a' <= c <= 'z' || 'A' <= c <= 'Z' || IsDigit(c) || c == '_'
  }

  predicate IsHashChar(c: char) {
    IsWordChar(c) || c == '-'
  }

  // ---- The patterns, tried at the start of a text ---------------------------

  datatype Kind = Invite | Private | Username

  predicate InClass(kind: Kind, c: char) {
    match kind
    case Invite => IsHashChar(c)
    case Private => IsDigit(c)
    case Username => IsWordChar(c)
  }

  /** Case-insensitive prefix test against a lower-case literal. */
  predicate Begins(s: string, literal: string) {
    |literal| <= |s| && Lower(s[..|literal|]) == literal
  }

  /** Length of "t.me/" or "telegram.me/" at the start, 0 if neither is there. */
  function HostLength(s: string): (n: nat)
    ensures n <= |s|
  {
    if Begins(s, "t.me/") then 5 else if Begins(s, "telegram.me/") then 12 else 0
  }

  /** Length of the marker between host and captured part; None if it is missing. */
  function MarkerLength(kind: Kind, s: string): (n: Option<nat>)
    ensures n.Some? ==> n.value <= |s|
  {
    match kind
    case Invite => if s != [] && s[0] == '+' then Some(1) else if Begins(s, "joinchat/") then Some(9) else None
    case Private => if Begins(s, "c/") then Some(2) else None
    case Username => Some(0)
  }

  /** The longest run of the kind's characters at the start. */
  function RunLength(kind: Kind, s: string): (n: nat)
    ensures n <= |s|
    ensures forall i :: 0 <= i < n ==> InClass(kind, s[i])
  {
    if s != [] && InClass(kind, s[0]) then RunLength(kind, s[1..]) + 1 else 0
  }

  /** Where the captured part would start; None if host or marker is missing. */
  function PartStart(kind: Kind, s: string): (n: Option<nat>)
    ensures n.Some? ==> n.value <= |s|
  {
    var host := HostLength(s);
    AfterMarker(host, MarkerLength(kind, s[host..]))
  }

  function AfterMarker(host: nat, marker: Option<nat>): Option<nat> {
    if host == 0 || marker.None? then None else Some(host + marker.value)
  }

  function CapturePart(kind: Kind, rest: string): Option<string> {
    var n := RunLength(kind, rest);
    if n == 0 || (kind.Private? && n < |rest| && rest[n] != '/') then None else Some(rest[..n])
  }

  /** What the pattern captures when it matches right here. */
  function CaptureHere(kind: Kind, s: string): Option<string> {
    if PartStart(kind, s).None? then None else CapturePart(kind, s[PartStart(kind, s).value..])
  }

  /** Leftmost match. */
  function Search(kind: Kind, s: string): Option<string> {
    if s == [] then None
    else if CaptureHere(kind, s).Some? then CaptureHere(kind, s)
    else Search(kind, s[1..])
  }

  function Normalize(value: string): string {
    var raw := Strip(value);
    if raw == [] then ""
    else if Search(Invite, raw).Some? then "invite:" + Search(Invite, raw).value
    else if Search(Private, raw).Some? then "-100" + Search(Private, raw).value
    else if Search(Username, raw).Some? then "@" + Lower(Search(Username, raw).value)
    else Unmatched(raw)
  }

  /** A text none of the patterns matches. */
  function Unmatched(raw: string): string
    requires raw != []
  {
    if raw[0] == '@' then "@" + Lower(Strip(raw[1..])) else raw
  }

  // ---- Facts about the pieces -----------------------------------------------

  lemma {:induction false} SearchCaptures(kind: Kind, s: string)
    requires Search(kind, s).Some?
    ensures Search(kind, s).value != []
    ensures forall i :: 0 <= i < |Search(kind, s).value| ==> InClass(kind, Search(kind, s).value[i])
  {
    if CaptureHere(kind, s).None? {
      SearchCaptures(kind, s[1..]);
    }
  }

  predicate Solid(s: string) {
    s == [] || (!IsSpace(s[0]) && !IsSpace(s[|s| - 1]))
  }

  lemma SolidIsStripped(s: string)
    requires Solid(s)
    ensures Strip(s) == s
  {}

  lemma {:induction false} StripLeftIsSuffix(s: string) returns (n: nat)
    ensures n <= |s| && StripLeft(s) == s[n..] && (StripLeft(s) == [] || !IsSpace(StripLeft(s)[0]))
  {
    if s != [] && IsSpace(s[0]) {
      var m := StripLeftIsSuffix(s[1..]);
      n := m + 1;
    } else {
      n := 0;
    }
  }

  lemma {:induction false} StripRightIsPrefix(s: string)
    ensures StripRight(s) <= s && (StripRight(s) == [] || !IsSpace(StripRight(s)[|StripRight(s)| - 1]))
  {
    if s != [] && IsSpace(s[|s| - 1]) {
      StripRightIsPrefix(s[..|s| - 1]);
    }
  }

  lemma StripIsSolid(s: string)
    ensures Solid(Strip(s))
  {
    var n := StripLeftIsSuffix(s);
    StripRightIsPrefix(StripLeft(s));
  }

  /** No pattern matches a text without a dot: the host name needs one. */
  lemma {:induction false} NoDotNoMatch(kind: Kind, s: string)
    requires forall i :: 0 <= i < |s| ==> s[i] != '.'
    ensures Search(kind, s).None?
  {
    if s != [] {
      NoDotNoMatch(kind, s[1..]);
      NoDotNoHost(s);
    }
  }

  lemma NoDotNoHost(s: string)
    requires forall i :: 0 <= i < |s| ==> s[i] != '.'
    ensures HostLength(s) == 0
  {
    assert |s| >= 5 ==> Lower(s[..5])[1] == LowerChar(s[1]) && "t.me/"[1] == '.';
    assert |s| >= 12 ==> Lower(s[..12])[8] == LowerChar(s[8]) && "telegram.me/"[8] == '.';
  }

  lemma LowerTwice(s: string)
    ensures Lower(Lower(s)) == Lower(s)
  {}

  lemma LowerSlice(s: string, i: nat, j: nat)
    requires i <= j <= |s|
    ensures Lower(s[i..j]) == Lower(s)[i..j]
  {}

  lemma BeginsIgnoresCase(s: string, literal: string)
    ensures Begins(Lower(s), literal) <==> Begins(s, literal)
  {
    if |literal| <= |s| {
      LowerSlice(s, 0, |literal|);
      LowerTwice(s[..|literal|]);
      assert s[0..|literal|] == s[..|literal|];
      assert Lower(s)[0..|literal|] == Lower(s)[..|literal|];
    }
  }

  lemma {:induction false} RunIgnoresCase(kind: Kind, s: string)
    ensures RunLength(kind, Lower(s)) == RunLength(kind, s)
  {
    if s != [] {
      assert Lower(s)[1..] == Lower(s[1..]);
      RunIgnoresCase(kind, s[1..]);
    }
  }

  lemma LowerTail(s: string, n: nat)
    requires n <= |s|
    ensures Lower(s)[n..] == Lower(s[n..])
  {}

  lemma HostIgnoresCase(s: string)
    ensures HostLength(Lower(s)) == HostLength(s)
  {
    BeginsIgnoresCase(s, "t.me/");
    BeginsIgnoresCase(s, "telegram.me/");
  }

  lemma MarkerIgnoresCase(kind: Kind, s: string)
    ensures MarkerLength(kind, Lower(s)) == MarkerLength(kind, s)
  {
    BeginsIgnoresCase(s, "joinchat/");
    BeginsIgnoresCase(s, "c/");
  }

  lemma PartStartIgnoresCase(kind: Kind, s: string)
    ensures PartStart(kind, Lower(s)) == PartStart(kind, s)
  {
    HostIgnoresCase(s);
    var host := HostLength(s);
    LowerTail(s, host);
    MarkerIgnoresCase(kind, s[host..]);
    var marker := MarkerLength(kind, s[host..]);
    PartStartIs(kind, s, host, marker);
    PartStartIs(kind, Lower(s), host, marker);
  }

  lemma PartStartIs(kind: Kind, s: string, host: nat, marker: Option<nat>)
    requires host == HostLength(s) && marker == MarkerLength(kind, s[host..])
    ensures PartStart(kind, s) == AfterMarker(host, marker)
  {}

  lemma PartIgnoresCase(kind: Kind, rest: string)
    ensures CapturePart(kind, Lower(rest)).Some? <==> CapturePart(kind, rest).Some?
  {
    RunIgnoresCase(kind, rest);
  }

  lemma MatchIgnoresCase(kind: Kind, s: string)
    ensures CaptureHere(kind, Lower(s)).Some? <==> CaptureHere(kind, s).Some?
  {
    PartStartIgnoresCase(kind, s);
    if PartStart(kind, s).Some? {
      var n := PartStart(kind, s).value;
      LowerTail(s, n);
      PartIgnoresCase(kind, s[n..]);
    }
  }

  lemma {:induction false} SearchIgnoresCase(kind: Kind, s: string)
    ensures Search(kind, Lower(s)).Some? <==> Search(kind, s).Some?
  {
    if s != [] {
      MatchIgnoresCase(kind, s);
      LowerTail(s, 1);
      SearchIgnoresCase(kind, s[1..]);
    }
  }

  lemma {:induction false} SearchOfSuffix(kind: Kind, s: string, n: nat)
    requires n <= |s| && Search(kind, s).None?
    ensures Search(kind, s[n..]).None?
  {
    if n > 0 {
      assert s[1..][n - 1..] == s[n..];
      SearchOfSuffix(kind, s[1..], n - 1);
    }
  }

  lemma AtSignHidesNothing(kind: Kind, s: string)
    ensures Search(kind, "@" + s).Some? <==> Search(kind, s).Some?
  {
    var t := "@" + s;
    assert t[1..] == s;
    assert |t| >= 5 ==> Lower(t[..5])[0] == '@';
    assert |t| >= 12 ==> Lower(t[..12])[0] == '@';
  }

  // ---- Normal forms are fixed -----------------------------------------------

  predicate Dotless(s: string) {
    forall i :: 0 <= i < |s| ==> s[i] != '.'
  }

  lemma DotlessIsUnmatched(s: string)
    requires Solid(s) && s != [] && Dotless(s)
    ensures Normalize(s) == Unmatched(s)
  {
    SolidIsStripped(s);
    NoDotNoMatch(Invite, s);
    NoDotNoMatch(Private, s);
    NoDotNoMatch(Username, s);
  }

  lemma UnmatchedName(name: string)
    requires Solid(name)
    ensures Unmatched("@" + name) == "@" + Lower(name)
  {
    assert ("@" + name)[1..] == name;
    SolidIsStripped(name);
  }

  lemma NameIsSolid(name: string)
    requires Solid(name)
    ensures Solid("@" + name) && Solid(Lower(name))
  {}

  lemma NoMatchIsFixed(raw: string)
    requires Solid(raw) && raw != []
    requires Search(Invite, raw).None? && Search(Private, raw).None? && Search(Username, raw).None?
    ensures Normalize(Normalize(raw)) == Normalize(raw)
  {
    SolidIsStripped(raw);
    if raw[0] == '@' {
      var left := StripLeftIsSuffix(raw[1..]);
      var name := raw[1..][left..];
      assert name == raw[1 + left..];
      assert Strip(raw[1..]) == name;
      assert Solid(name);
      var r := "@" + Lower(name);
      NameIsSolid(name);
      NameIsSolid(Lower(name));
      NoMatchBehindAt(Invite, raw, 1 + left);
      NoMatchBehindAt(Private, raw, 1 + left);
      NoMatchBehindAt(Username, raw, 1 + left);
      SolidIsStripped(r);
      UnmatchedName(Lower(name));
      LowerTwice(name);
    }
  }

  /** Lower-casing what follows, behind an at-sign, brings no match about. */
  lemma NoMatchBehindAt(kind: Kind, raw: string, n: nat)
    requires n <= |raw| && Search(kind, raw).None?
    ensures Search(kind, "@" + Lower(raw[n..])).None?
  {
    SearchOfSuffix(kind, raw, n);
    SearchIgnoresCase(kind, raw[n..]);
    AtSignHidesNothing(kind, Lower(raw[n..]));
  }

  lemma InviteFormIsFixed(g: string)
    requires forall i :: 0 <= i < |g| ==> IsHashChar(g[i])
    ensures Normalize("invite:" + g) == "invite:" + g
  {
    DotlessIsUnmatched("invite:" + g);
  }

  lemma PrivateFormIsFixed(g: string)
    requires AllDigits(g)
    ensures Normalize("-100" + g) == "-100" + g
  {
    DotlessIsUnmatched("-100" + g);
  }

  lemma UsernameFormIsFixed(g: string)
    requires forall i :: 0 <= i < |g| ==> IsWordChar(g[i])
    ensures Normalize("@" + Lower(g)) == "@" + Lower(g)
  {
    WordIsPlain(g);
    NameIsSolid(Lower(g));
    DotlessIsUnmatched("@" + Lower(g));
    UnmatchedName(Lower(g));
    LowerTwice(g);
  }

  lemma WordIsPlain(g: string)
    requires forall i :: 0 <= i < |g| ==> IsWordChar(g[i])
    ensures Solid(Lower(g)) && Dotless("@" + Lower(g))
  {
    LowerWordIsPlain(g);
    PlainIsDotless(Lower(g));
  }

  lemma LowerWordIsPlain(g: string)
    requires forall i :: 0 <= i < |g| ==> IsWordChar(g[i])
    ensures forall i :: 0 <= i < |g| ==> !IsSpace(Lower(g)[i]) && Lower(g)[i] != '.'
  {
    forall i | 0 <= i < |g|
      ensures !IsSpace(Lower(g)[i]) && Lower(g)[i] != '.'
    {
      WordCharIsPlain(g[i]);
    }
  }

  lemma PlainIsDotless(r: string)
    requires forall i :: 0 <= i < |r| ==> r[i] != '.'
    ensures Dotless("@" + r)
  {}

  lemma WordCharIsPlain(c: char)
    requires IsWordChar(c)
    ensures !IsSpace(LowerChar(c)) && LowerChar(c) != '.'
  {}

  /** Normalizing twice is normalizing once, for every input. */
  lemma NormalizeIsIdempotent(value: string)
    ensures Normalize(Normalize(value)) == Normalize(value)
  {
    var raw := Strip(value);
    StripIsSolid(value);
    SolidIsStripped(raw);
    if raw == [] {
    } else if Search(Invite, raw).Some? {
      SearchCaptures(Invite, raw);
      InviteFormIsFixed(Search(Invite, raw).value);
    } else if Search(Private, raw).Some? {
      SearchCaptures(Private, raw);
      PrivateFormIsFixed(Search(Private, raw).value);
    } else if Search(Username, raw).Some? {
      SearchCaptures(Username, raw);
      UsernameFormIsFixed(Search(Username, raw).value);
    } else {
      assert Normalize(raw) == Normalize(value);
      NoMatchIsFixed(raw);
    }
  }

  // ---- Canonical identities of resolved chats -------------------------------

  /** What the messenger says a chat is: a public name, or only a number. */
  datatype Entity = Named(username: string) | Numbered(id: nat)

  predicate ValidEntity(e: Entity) {
    e.Named? ==> e.username != [] && forall i :: 0 <= i < |e.username| ==> IsWordChar(e.username[i])
  }

  function Canonical(e: Entity): string {
    if e.Named? then "@" + Lower(e.username) else "-100" + PrintNat(e.id)
  }

  /** Reassigning an onboarded target looks its identifier up again and finds the same
      row: canonical identities are their own normal forms. */
  lemma CanonicalIsFixed(e: Entity)
    requires ValidEntity(e)
    ensures Normalize(Canonical(e)) == Canonical(e)
  {
    if e.Named? {
      UsernameFormIsFixed(e.username);
    } else {
      PrivateFormIsFixed(PrintNat(e.id));
    }
  }

  /** A bare -100<digits>: a chat nothing can be joined by. */
  predicate IsPrivate(identifier: string) {
    StartsWith(identifier, "-100") && AllDigits(identifier[1..])
  }

  predicate IsInvite(identifier: string) {
    StartsWith(identifier, "invite:")
  }

  /** What follows the first colon, if anything does. */
  function InviteHash(identifier: string): Option<string>
    requires IsInvite(identifier)
  {
    if identifier[7..] == "" then None else Some(identifier[7..])
  }

  /** The hash of an invite survives normalizing and settling; nothing else is an invite. */
  lemma InviteHashIsKept(identifier: string, hash: string)
    ensures IsInvite(identifier) && InviteHash(identifier) == Some(hash) <==>
              identifier == "invite:" + hash && hash != ""
  {
    if IsInvite(identifier) {
      assert identifier == identifier[..7] + identifier[7..];
    }
    assert ("invite:" + hash)[7..] == hash;
  }

  /** The three shapes of identity exclude each other. */
  lemma ShapesAreDisjoint(e: Entity)
    requires ValidEntity(e)
    ensures IsPrivate(Canonical(e)) <==> e.Numbered?
    ensures !IsInvite(Canonical(e))
  {
    if e.Numbered? {
      var s := Canonical(e);
      assert s[0] == '-';
      assert s[1..] == "100" + PrintNat(e.id);
    } else {
      assert Canonical(e)[0] == '@';
    }
  }

  // ---- What the shapes of input become --------------------------------------

  /** Blanks, tabs, line ends and the four separators. */
  predicate Blank(s: string) {
    forall i :: 0 <= i < |s| ==> s[i] as int in {9, 10, 11, 12, 13, 28, 29, 30, 31, 32}
  }

  lemma {:induction false} StripLeftDrops(a: string, s: string)
    requires Blank(a)
    ensures StripLeft(a + s) == StripLeft(s)
  {
    if a == "" {
      assert a + s == s;
    } else {
      assert (a + s)[1..] == a[1..] + s;
      StripLeftDrops(a[1..], s);
    }
  }

  lemma {:induction false} StripRightDrops(s: string, b: string)
    requires Blank(b)
    ensures StripRight(s + b) == StripRight(s)
  {
    if b == "" {
      assert s + b == s;
    } else {
      assert (s + b)[..|s + b| - 1] == s + b[..|b| - 1];
      StripRightDrops(s, b[..|b| - 1]);
    }
  }

  /** Blanks around a text make no difference. */
  lemma StripOf(a: string, w: string, b: string)
    requires Blank(a) && Blank(b) && (w == "" || (!Blank([w[0]]) && !Blank([w[|w| - 1]])))
    ensures Strip(a + w + b) == w
    ensures Normalize(a + w + b) == Normalize(w)
  {
    assert Solid(w) by {
      assert w != "" ==> [w[0]][0] == w[0] && [w[|w| - 1]][0] == w[|w| - 1];
    }
    SolidIsStripped(w);
    assert a + w + b == a + (w + b);
    StripLeftDrops(a, w + b);
    if w == "" {
      assert w + b == b && b + "" == b;
      StripLeftDrops(b, "");
    } else {
      assert StripLeft(w + b) == w + b;
      StripRightDrops(w, b);
    }
  }

  /** Equal to a lower-case text, except that letters may be capitals. */
  predicate SameButCase(s: string, literal: string) {
    |s| == |literal| && forall i :: 0 <= i < |s| ==>
      s[i] == literal[i] || ('a' <= literal[i] <= 'z' && s[i] as int + 32 == literal[i] as int)
  }

  predicate NoCapitals(s: string) {
    forall i :: 0 <= i < |s| ==> !('A' <= s[i] <= 'Z')
  }

  lemma LowerIffSame(s: string, literal: string)
    requires NoCapitals(literal)
    ensures Lower(s) == literal <==> SameButCase(s, literal)
  {}

  /** Lower-casing leaves no capital and changes nothing else. */
  lemma LowerIsSame(s: string)
    ensures NoCapitals(Lower(s)) && SameButCase(s, Lower(s))
  {}

  predicate IsHost(s: string) {
    SameButCase(s, "t.me/") || SameButCase(s, "telegram.me/")
  }

  lemma BeginsAt(s: string, literal: string, i: nat)
    requires Begins(s, literal) && i < |literal|
    ensures i < |s| && LowerChar(s[i]) == literal[i]
  {
    assert Lower(s[..|literal|])[i] == LowerChar(s[..|literal|][i]);
  }

  lemma BeginsIs(host: string, x: string, literal: string)
    requires SameButCase(host, literal) && NoCapitals(literal)
    ensures Begins(host + x, literal)
  {
    assert (host + x)[..|literal|] == host;
    LowerIffSame(host, literal);
  }

  /** The host is found where it is, */
  lemma HostIsFound(host: string, x: string)
    requires IsHost(host)
    ensures HostLength(host + x) == |host|
  {
    if SameButCase(host, "t.me/") {
      BeginsIs(host, x, "t.me/");
    } else {
      BeginsIs(host, x, "telegram.me/");
      if Begins(host + x, "t.me/") {
        BeginsAt(host + x, "t.me/", 1);
      }
    }
  }

  /** not later, if no dot follows it, */
  lemma NoHostInside(host: string, x: string, i: nat)
    requires IsHost(host) && Dotless(x) && 1 <= i <= |host + x|
    ensures HostLength((host + x)[i..]) == 0
  {
    var s := (host + x)[i..];
    if Begins(s, "t.me/") {
      BeginsAt(s, "t.me/", 0);
      BeginsAt(s, "t.me/", 1);
    }
    if Begins(s, "telegram.me/") {
      BeginsAt(s, "telegram.me/", 8);
    }
  }

  /** and not earlier, if no dot precedes it. */
  lemma NoHostBefore(q: string, host: string, x: string)
    requires IsHost(host) && Dotless(q) && q != ""
    ensures HostLength(q + host + x) == 0
  {
    var s := q + host + x;
    if Begins(s, "t.me/") {
      BeginsAt(s, "t.me/", 1);
    }
    if Begins(s, "telegram.me/") {
      NoLongHostBefore(q, host, x);
    }
  }

  lemma NoLongHostBefore(q: string, host: string, x: string)
    requires IsHost(host) && Dotless(q) && q != ""
    ensures !Begins(q + host + x, "telegram.me/")
  {
    var s, n := q + host + x, |q|;
    assert forall k :: 0 <= k < |host| ==> s[n + k] == host[k];
    if Begins(s, "telegram.me/") {
      BeginsAt(s, "telegram.me/", if n <= 8 then n else 8);
    }
  }

  lemma {:induction false} SearchInside(kind: Kind, host: string, x: string, i: nat)
    requires IsHost(host) && Dotless(x) && 1 <= i <= |host + x|
    ensures Search(kind, (host + x)[i..]).None?
    decreases |host + x| - i
  {
    NoHostInside(host, x, i);
    if i < |host + x| {
      assert (host + x)[i..][1..] == (host + x)[i + 1..];
      SearchInside(kind, host, x, i + 1);
    }
  }

  /** What the pattern captures behind the host. */
  function CaptureBehind(kind: Kind, x: string): Option<string> {
    if MarkerLength(kind, x).None? then None else CapturePart(kind, x[MarkerLength(kind, x).value..])
  }

  /** In a text whose only dot is that of its host, a pattern captures what it does behind
      the host. */
  lemma {:induction false} SearchFinds(kind: Kind, pre: string, host: string, x: string)
    requires IsHost(host) && Dotless(pre) && Dotless(x)
    ensures Search(kind, pre + host + x) == CaptureBehind(kind, x)
  {
    if pre == "" {
      var s := host + x;
      assert pre + host + x == s;
      HostIsFound(host, x);
      assert s[|host|..] == x;
      if MarkerLength(kind, x).Some? {
        var m := MarkerLength(kind, x).value;
        assert s[|host| + m..] == x[m..];
      }
      assert CaptureHere(kind, s) == CaptureBehind(kind, x);
      assert s[1..] == (host + x)[1..];
      SearchInside(kind, host, x, 1);
    } else {
      NoHostBefore(pre, host, x);
      assert (pre + host + x)[1..] == pre[1..] + host + x;
      SearchFinds(kind, pre[1..], host, x);
    }
  }

  lemma {:induction false} RunIs(kind: Kind, g: string, rest: string)
    requires forall i :: 0 <= i < |g| ==> InClass(kind, g[i])
    requires rest == "" || !InClass(kind, rest[0])
    ensures RunLength(kind, g + rest) == |g|
  {
    if g == "" {
      assert g + rest == rest;
    } else {
      assert (g + rest)[1..] == g[1..] + rest;
      RunIs(kind, g[1..], rest);
    }
  }

  /** Letters, digits and the underscore. */
  predicate PlainWord(s: string) {
    forall i :: 0 <= i < |s| ==> 'a' <= s[i] <= 'z' || 'A' <= s[i] <= 'Z' || '0' <= s[i] <= '9' || s[i] == '_'
  }

  predicate EndsWord(rest: string) {
    rest == "" || !PlainWord([rest[0]])
  }

  lemma CaptureIs(kind: Kind, marker: string, g: string, rest: string)
    requires MarkerLength(kind, marker + g + rest) == Some(|marker|) && g != ""
    requires forall i :: 0 <= i < |g| ==> InClass(kind, g[i])
    requires rest == "" || !InClass(kind, rest[0])
    requires kind.Private? ==> rest == "" || rest[0] == '/'
    ensures CaptureBehind(kind, marker + g + rest) == Some(g)
  {
    assert (marker + g + rest)[|marker|..] == g + rest;
    RunIs(kind, g, rest);
    assert (g + rest)[..|g|] == g;
  }

  /** An invite link, in whatever text without another dot, becomes its hash as written. */
  lemma InviteLink(pre: string, host: string, marker: string, hash: string, rest: string)
    requires IsHost(host) && (marker == "+" || SameButCase(marker, "joinchat/")) && hash != ""
    requires forall i :: 0 <= i < |hash| ==> hash[i] == '-' || PlainWord([hash[i]])
    requires EndsWord(rest) && (rest != "" ==> rest[0] != '-')
    requires Dotless(pre) && Dotless(rest) && Solid(pre + host + (marker + hash + rest))
    ensures Normalize(pre + host + (marker + hash + rest)) == "invite:" + hash
  {
    var x := marker + hash + rest;
    WordsAreInClass(hash, rest);
    MarkedInvite(marker, hash + rest);
    assert x == marker + (hash + rest);
    CaptureIs(Invite, marker, hash, rest);
    MarkerIsDotless(marker, hash, rest);
    NormalizeLink(pre, host, x);
  }

  lemma WordsAreInClass(hash: string, rest: string)
    requires forall i :: 0 <= i < |hash| ==> hash[i] == '-' || PlainWord([hash[i]])
    requires EndsWord(rest) && (rest != "" ==> rest[0] != '-')
    ensures forall i :: 0 <= i < |hash| ==> InClass(Invite, hash[i]) && hash[i] != '.'
    ensures rest == "" || !InClass(Invite, rest[0])
  {
    forall i | 0 <= i < |hash|
      ensures InClass(Invite, hash[i]) && hash[i] != '.'
    {
      assert hash[i] != '-' ==> PlainWord([hash[i]]) && [hash[i]][0] == hash[i];
    }
    if rest != "" {
      assert [rest[0]][0] == rest[0];
    }
  }

  lemma MarkedInvite(marker: string, y: string)
    requires marker == "+" || SameButCase(marker, "joinchat/")
    ensures MarkerLength(Invite, marker + y) == Some(|marker|)
  {
    if marker == "+" {
      assert (marker + y)[0] == '+';
    } else {
      BeginsIs(marker, y, "joinchat/");
      assert (marker + y)[0] == marker[0];
    }
  }

  lemma MarkerIsDotless(marker: string, g: string, rest: string)
    requires marker == "+" || marker == "" || SameButCase(marker, "joinchat/") || SameButCase(marker, "c/")
    requires Dotless(g) && Dotless(rest)
    ensures Dotless(marker + g + rest)
  {}

  /** A link into a private chat becomes its number behind -100. */
  lemma PrivateLink(pre: string, host: string, marker: string, digits: string, rest: string)
    requires IsHost(host) && SameButCase(marker, "c/") && digits != ""
    requires forall i :: 0 <= i < |digits| ==> '0' <= digits[i] <= '9'
    requires rest == "" || rest[0] == '/'
    requires Dotless(pre) && Dotless(rest) && Solid(pre + host + (marker + digits + rest))
    ensures Normalize(pre + host + (marker + digits + rest)) == "-100" + digits
  {
    var x := marker + digits + rest;
    assert x == marker + (digits + rest);
    BeginsIs(marker, digits + rest, "c/");
    CaptureIs(Private, marker, digits, rest);
    MarkerIsDotless(marker, digits, rest);
    NotMarkedInvite(x, 'c');
    NormalizeLink(pre, host, x);
  }

  lemma NotMarkedInvite(x: string, c: char)
    requires x != "" && LowerChar(x[0]) == c && c != 'j' && c != '+'
    ensures MarkerLength(Invite, x).None?
  {
    BeginsIff(x, "joinchat/");
  }

  lemma BeginsIff(x: string, literal: string)
    requires literal != "" && x != ""
    ensures Begins(x, literal) ==> LowerChar(x[0]) == literal[0]
  {
    if Begins(x, literal) {
      BeginsAt(x, literal, 0);
    }
  }

  /** A link to a public name becomes the name in small letters behind an at-sign, and so
      does the name behind an at-sign alone. */
  lemma UsernameLink(pre: string, host: string, name: string, rest: string)
    requires IsHost(host) && PlainWord(name) && name != "" && EndsWord(rest)
    requires rest == "" || rest[0] != '/' || !(SameButCase(name, "joinchat") || SameButCase(name, "c"))
    requires Dotless(pre) && Dotless(rest) && Solid(pre + host + (name + rest))
    ensures Normalize(pre + host + (name + rest)) == "@" + Lower(name)
  {
    UsernameBehind(name, rest);
    NormalizeLink(pre, host, name + rest);
  }

  /** What a link becomes depends on what its patterns capture behind the host. */
  lemma NormalizeLink(pre: string, host: string, x: string)
    requires IsHost(host) && Dotless(pre) && Dotless(x) && Solid(pre + host + x)
    ensures Normalize(pre + host + x)
            == if CaptureBehind(Invite, x).Some? then "invite:" + CaptureBehind(Invite, x).value
               else if CaptureBehind(Private, x).Some? then "-100" + CaptureBehind(Private, x).value
               else if CaptureBehind(Username, x).Some? then "@" + Lower(CaptureBehind(Username, x).value)
               else Normalize(pre + host + x)
  {
    var raw := pre + host + x;
    SearchFinds(Invite, pre, host, x);
    SearchFinds(Private, pre, host, x);
    SearchFinds(Username, pre, host, x);
    SolidIsStripped(raw);
    assert |raw| >= |host| > 0;
  }

  lemma UsernameBehind(name: string, rest: string)
    requires PlainWord(name) && name != "" && EndsWord(rest) && Dotless(rest)
    requires rest == "" || rest[0] != '/' || !(SameButCase(name, "joinchat") || SameButCase(name, "c"))
    ensures Dotless(name + rest) && CaptureBehind(Username, name + rest) == Some(name)
    ensures CaptureBehind(Invite, name + rest).None? && CaptureBehind(Private, name + rest).None?
  {
    assert "" + name + rest == name + rest;
    assert forall i :: 0 <= i < |name| ==> InClass(Username, name[i]);
    assert rest != "" ==> [rest[0]][0] == rest[0];
    CaptureIs(Username, "", name, rest);
    NameIsUnmarked(name, rest);
    MarkerIsDotless("", name, rest);
  }

  lemma NameIsUnmarked(name: string, rest: string)
    requires PlainWord(name) && name != "" && EndsWord(rest)
    requires rest == "" || rest[0] != '/' || !(SameButCase(name, "joinchat") || SameButCase(name, "c"))
    ensures MarkerLength(Invite, name + rest).None? && MarkerLength(Private, name + rest).None?
  {
    assert "joinchat/"[..8] == "joinchat" && "c/"[..1] == "c";
    NameIsNoMarker(name, rest, "joinchat/");
    NameIsNoMarker(name, rest, "c/");
    assert (name + rest)[0] == name[0];
  }

  /** A name does not read as a marker. */
  lemma NameIsNoMarker(name: string, rest: string, marker: string)
    requires PlainWord(name) && name != "" && EndsWord(rest) && (marker == "joinchat/" || marker == "c/")
    requires rest == "" || rest[0] != '/' || !SameButCase(name, marker[..|marker| - 1])
    ensures !Begins(name + rest, marker)
  {
    var x, n := name + rest, |marker| - 1;
    if Begins(x, marker) {
      BeginsAt(x, marker, n);
      forall i: nat | i < n
        ensures LowerChar(x[i]) == marker[i] && x[i] != '/'
      {
        BeginsAt(x, marker, i);
      }
      if |name| < n {
        assert x[|name|] == rest[0] && [rest[0]][0] == rest[0];
        assert PlainWord([rest[0]]);
        assert false;
      } else if |name| == n {
        assert x[n] == rest[0];
        assert SameButCase(name, marker[..n]);
        assert false;
      }
    }
  }

  lemma BareUsername(name: string)
    requires PlainWord(name) && name != ""
    ensures Normalize("@" + name) == "@" + Lower(name)
  {
    assert forall i :: 0 <= i < |name| ==> IsWordChar(name[i]) && !IsSpace(name[i]) && name[i] != '.';
    assert Solid("@" + name) && Dotless("@" + name);
    DotlessIsUnmatched("@" + name);
    UnmatchedName(name);
  }
}
