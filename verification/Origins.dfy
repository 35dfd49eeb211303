/**
 Server origins of the HTTP driver: which origins are configured, and which origin
 an address advertised by a server stands for.

 `new URL(text)` belongs to the platform. It is a parameter here, a function that
 gives None where the constructor throws.
 */
module Origins {
  import opened Wrappers

  datatype Url = Url(protocol: string, host: string)

  type UrlParser = string -> Option<Url>

  datatype TranslatedAddress = TranslatedAddress(external: string, internal: string)

  datatype DriverParams =
    | Basic(addresses: seq<string>)
    | Translated(translatedAddresses: seq<TranslatedAddress>)
  {
    /** Without a first translated address `remoteOrigin` throws and no driver is made. */
    predicate Usable() {
      Translated? ==> |translatedAddresses| > 0
    }

    function Size(): nat {
      if Basic? then |addresses| else |translatedAddresses|
    }
  }

  /** All configured origins, in configuration order, duplicates included. */
  function AllOrigins(p: DriverParams): (origins: seq<string>)
    ensures |origins| == p.Size()
  {
    match p
    case Basic(addresses) => addresses
    case Translated(tas) => seq(|tas|, i requires 0 <= i < |tas| => tas[i].external)
  }

  /** An empty list of plain addresses interpolates `undefined` into the origin. */
  function RemoteOrigin(p: DriverParams): string
    requires p.Usable()
  {
    var origins := AllOrigins(p);
    if origins == [] then "undefined" else origins[0]
  }

  // ----- scheme prefixes -----

  predicate IsAlpha(c: char) {
    'a' <= c <= 'z' || 'A' <= c <= 'Z'
  }

  predicate IsSchemeChar(c: char) {
    IsAlpha(c) || '0' <= c <= '9' || c == '+' || c == '.' || c == '-'
  }

  predicate SchemeTail(s: string) {
    if s == [] then false
    else if IsSchemeChar(s[0]) then SchemeTail(s[1..])
    else "://" <= s
  }

  /** The test of SCHEME_PREFIX_REGEX. */
  predicate HasScheme(s: string) {
    s != [] && IsAlpha(s[0]) && SchemeTail(s[1..])
  }

  function HostPort(url: UrlParser, origin: string): string {
    if !HasScheme(origin) then origin
    else
      match url(origin)
      case Some(u) => u.host
      case None => origin
  }

  function OriginWithScheme(url: UrlParser, address: string, reference: string): string {
    if HasScheme(address) then address
    else
      match url(reference)
      case Some(u) => u.protocol + "//" + address
      case None => "https://" + address
  }

  // ----- resolution of an advertised address -----

  /** Whether the i-th configured entry answers to the given host and port. */
  predicate Matches(url: UrlParser, p: DriverParams, i: nat, target: string)
    requires i < p.Size()
  {
    match p
    case Basic(addresses) => HostPort(url, addresses[i]) == target
    case Translated(tas) =>
      HostPort(url, tas[i].internal) == target || HostPort(url, tas[i].external) == target
  }

  /** Index of the first matching entry from index `i` on, or the number of entries. */
  function FirstMatch(url: UrlParser, p: DriverParams, target: string, i: nat := 0): (k: nat)
    requires i <= p.Size()
    ensures i <= k <= p.Size()
    ensures k < p.Size() ==> Matches(url, p, k, target)
    ensures forall j: nat | i <= j < k :: !Matches(url, p, j, target)
    decreases p.Size() - i
  {
    if i == p.Size() || Matches(url, p, i, target) then i
    else FirstMatch(url, p, target, i + 1)
  }

  predicate MatchesSome(url: UrlParser, p: DriverParams, address: string) {
    FirstMatch(url, p, HostPort(url, address)) < p.Size()
  }

  function ResolveOrigin(url: UrlParser, p: DriverParams, primaryAddress: string): string
    requires p.Usable()
  {
    var k := FirstMatch(url, p, HostPort(url, primaryAddress));
    if k < p.Size() then AllOrigins(p)[k]
    else OriginWithScheme(url, primaryAddress, RemoteOrigin(p))
  }

  /**
   No entry that can be a resolution result is hidden behind another: the first entry
   that answers to the host of its origin has that same origin.
   */
  ghost predicate NoneHidden(url: UrlParser, p: DriverParams) {
    forall j: nat | j < p.Size() && Live(url, p, j) ::
      var k := FirstMatch(url, p, HostPort(url, AllOrigins(p)[j]));
      k < p.Size() && AllOrigins(p)[k] == AllOrigins(p)[j]
  }

  /** Some advertised address resolves to the j-th entry. */
  predicate Live(url: UrlParser, p: DriverParams, j: nat)
    requires j < p.Size()
  {
    FirstMatch(url, p, HostPort(url, AllOrigins(p)[j])) == j
    || (p.Translated? && FirstMatch(url, p, HostPort(url, p.translatedAddresses[j].internal)) == j)
  }

  ghost predicate Stable(url: UrlParser, p: DriverParams, address: string)
    requires p.Usable()
  {
    ResolveOrigin(url, p, ResolveOrigin(url, p, address)) == ResolveOrigin(url, p, address)
  }

  /**
   Over the addresses that some entry answers to, resolution is idempotent exactly
   when no entry is hidden.
   */
  lemma ResolveStableIff(url: UrlParser, p: DriverParams)
    requires p.Usable()
    ensures (forall a | MatchesSome(url, p, a) :: Stable(url, p, a)) <==> NoneHidden(url, p)
  {
    if NoneHidden(url, p) {
      forall a | MatchesSome(url, p, a) ensures Stable(url, p, a) {
        var k := FirstMatch(url, p, HostPort(url, a));
        assert Live(url, p, k);
      }
    }
    if forall a | MatchesSome(url, p, a) :: Stable(url, p, a) {
      forall j: nat | j < p.Size() && Live(url, p, j)
        ensures var k := FirstMatch(url, p, HostPort(url, AllOrigins(p)[j]));
                k < p.Size() && AllOrigins(p)[k] == AllOrigins(p)[j]
      {
        var ext := AllOrigins(p)[j];
        assert Matches(url, p, j, HostPort(url, ext));
        var k := FirstMatch(url, p, HostPort(url, ext));
        if k != j {
          var a := p.translatedAddresses[j].internal;
          assert ResolveOrigin(url, p, a) == ext;
          assert Stable(url, p, a);
        }
      }
    }
  }

  /** Plain addresses never hide one another. */
  lemma BasicNeverHidden(url: UrlParser, p: DriverParams)
    requires p.Basic?
    ensures NoneHidden(url, p)
  {
  }

  // ----- what an advertised address stands for, without the code's helpers -----

  predicate Letter(c: char) {
    'a' <= c <= 'z' || 'A' <= c <= 'Z'
  }

  /** A letter, then letters, digits and +, . or -, up to a "://" at index k. */
  predicate SchemeEndsAt(s: string, k: nat) {
    && 1 <= k && k + 3 <= |s| && Letter(s[0]) && s[k..k + 3] == "://"
    && forall i | 1 <= i < k :: Letter(s[i]) || '0' <= s[i] <= '9' || s[i] in {'+', '.', '-'}
  }

  /** The host and port a text stands for: that of the URL it is, or else the text. */
  ghost function HostOf(url: UrlParser, text: string): string {
    if (exists k: nat :: SchemeEndsAt(text, k)) && url(text).Some? then url(text).value.host else text
  }

  /** A server the user configured, by the public origin or by the translated internal address. */
  ghost predicate KnownAs(url: UrlParser, p: DriverParams, i: nat, host: string)
    requires i < p.Size()
  {
    match p
    case Basic(addresses) => HostOf(url, addresses[i]) == host
    case Translated(tas) => HostOf(url, tas[i].external) == host || HostOf(url, tas[i].internal) == host
  }

  /** The origin an address without any configured server goes to: the scheme is that of the first one. */
  ghost function OwnOrigin(url: UrlParser, p: DriverParams, address: string): string
    requires p.Usable()
  {
    var first := match p
                 case Basic(addresses) => if addresses == [] then "undefined" else addresses[0]
                 case Translated(tas) => tas[0].external;
    if exists k: nat :: SchemeEndsAt(address, k) then address
    else if url(first).Some? then url(first).value.protocol + "//" + address
    else "https://" + address
  }

  ghost predicate FirstKnownAs(url: UrlParser, p: DriverParams, i: nat, host: string) {
    && i < p.Size() && KnownAs(url, p, i, host)
    && forall j: nat | j < i :: !KnownAs(url, p, j, host)
  }

  /** The first configured server known by the host of an address, or else the address itself with a scheme. */
  ghost predicate StandsFor(url: UrlParser, p: DriverParams, address: string, origin: string)
    requires p.Usable()
  {
    var host := HostOf(url, address);
    || (exists i: nat :: FirstKnownAs(url, p, i, host)
                         && origin == if p.Basic? then p.addresses[i] else p.translatedAddresses[i].external)
    || ((forall i: nat | i < p.Size() :: !KnownAs(url, p, i, host)) && origin == OwnOrigin(url, p, address))
  }

  /** An advertised address resolves to the one origin it stands for. */
  lemma ResolveLaw(url: UrlParser, p: DriverParams, address: string, origin: string)
    requires p.Usable()
    ensures ResolveOrigin(url, p, address) == origin <==> StandsFor(url, p, address, origin)
  {
    HostLaw(url, address);
    SchemeIff(address);
    var host := HostPort(url, address);
    FirstKnownIff(url, p, host);
    var k := FirstMatch(url, p, host);
    assert k == p.Size() ==> ResolveOrigin(url, p, address) == OwnOrigin(url, p, address);
    assert k < p.Size() ==> FirstKnownAs(url, p, k, host);
  }

  /** The first match is the first server known by the host. */
  lemma FirstKnownIff(url: UrlParser, p: DriverParams, host: string)
    ensures var k := FirstMatch(url, p, host);
            && (forall i: nat :: FirstKnownAs(url, p, i, host) <==> i == k < p.Size())
            && (k == p.Size() <==> forall i: nat | i < p.Size() :: !KnownAs(url, p, i, host))
  {
    forall i: nat | i < p.Size() ensures KnownAs(url, p, i, host) <==> Matches(url, p, i, host) {
      MatchLaw(url, p, i, host);
    }
  }

  lemma MatchLaw(url: UrlParser, p: DriverParams, i: nat, host: string)
    requires i < p.Size()
    ensures KnownAs(url, p, i, host) <==> Matches(url, p, i, host)
  {
    match p
    case Basic(addresses) => HostLaw(url, addresses[i]);
    case Translated(tas) =>
      HostLaw(url, tas[i].external);
      HostLaw(url, tas[i].internal);
  }

  lemma HostLaw(url: UrlParser, text: string)
    ensures HostPort(url, text) == HostOf(url, text)
  {
    SchemeIff(text);
  }

  lemma SchemeIff(s: string)
    ensures HasScheme(s) <==> exists k: nat :: SchemeEndsAt(s, k)
  {
    if s != [] {
      SchemeTailIff(s, 1);
      if HasScheme(s) {
        var k: nat :| TailEndsAt(s, 1, k);
        assert SchemeEndsAt(s, k);
      }
      if k: nat :| SchemeEndsAt(s, k) {
        assert TailEndsAt(s, 1, k);
      }
    }
  }

  predicate TailEndsAt(s: string, i: nat, k: nat) {
    i <= k && k + 3 <= |s| && s[k..k + 3] == "://" && forall j | i <= j < k :: IsSchemeChar(s[j])
  }

  lemma {:induction false} SchemeTailIff(s: string, i: nat)
    requires i <= |s|
    ensures SchemeTail(s[i..]) <==> exists k: nat :: TailEndsAt(s, i, k)
    decreases |s| - i
  {
    if i < |s| {
      assert s[i..][1..] == s[i + 1..];
      if IsSchemeChar(s[i]) {
        SchemeTailIff(s, i + 1);
        if SchemeTail(s[i..]) {
          var k: nat :| TailEndsAt(s, i + 1, k);
          assert TailEndsAt(s, i, k);
        }
        if k: nat :| TailEndsAt(s, i, k) {
          assert s[k..k + 3][0] == ':';
          assert TailEndsAt(s, i + 1, k);
        }
      } else {
        if k: nat :| TailEndsAt(s, i, k) {
          assert s[i..][..3] == "://";
        }
        if "://" <= s[i..] {
          assert TailEndsAt(s, i, i);
        }
      }
    }
  }

  /** `URL.protocol` is a scheme name followed by a colon. */
  ghost predicate ProtocolsAreSchemes(url: UrlParser) {
    forall text | url(text).Some? :: HasScheme(url(text).value.protocol + "//")
  }

  lemma {:induction false} SchemeTailExtends(s: string, t: string)
    requires SchemeTail(s)
    ensures SchemeTail(s + t)
  {
    if IsSchemeChar(s[0]) {
      SchemeTailExtends(s[1..], t);
      assert (s + t)[1..] == s[1..] + t;
    } else {
      assert (s + t)[..3] == s[..3] == "://";
    }
  }

  lemma SchemeExtends(s: string, t: string)
    requires HasScheme(s)
    ensures HasScheme(s + t)
  {
    SchemeTailExtends(s[1..], t);
    assert (s + t)[1..] == s[1..] + t;
  }

  lemma HttpsIsScheme()
    ensures HasScheme("https://")
  {
  }

  lemma OriginWithSchemeHasScheme(url: UrlParser, address: string, reference: string)
    requires ProtocolsAreSchemes(url)
    ensures HasScheme(OriginWithScheme(url, address, reference))
  {
    if !HasScheme(address) {
      HttpsIsScheme();
      var prefix := if url(reference).Some? then url(reference).value.protocol + "//" else "https://";
      SchemeExtends(prefix, address);
    }
  }

  /**
   An address that no entry answers to resolves to itself with a scheme. Resolving it
   again gives the same origin exactly when the scheme did not turn it into the host of
   an entry with another origin; adding the scheme to a canonical host and port keeps
   the host, so then it never does.
   */
  lemma UnmatchedStableIff(url: UrlParser, p: DriverParams, a: string)
    requires p.Usable() && ProtocolsAreSchemes(url) && !MatchesSome(url, p, a)
    ensures var r := ResolveOrigin(url, p, a);
            var k := FirstMatch(url, p, HostPort(url, r));
            && HasScheme(r)
            && (Stable(url, p, a) <==> k < p.Size() ==> AllOrigins(p)[k] == r)
            && (HostPort(url, r) == HostPort(url, a) ==> Stable(url, p, a))
  {
    OriginWithSchemeHasScheme(url, a, RemoteOrigin(p));
  }

  /**
   A translated entry can be hidden: its public origin is the internal address of an
   earlier entry, so an address resolves to one server and then to another.
   */
  lemma HiddenEntryExample(url: UrlParser)
    ensures var p := Translated([TranslatedAddress("a", "b"), TranslatedAddress("b", "c")]);
            && ResolveOrigin(url, p, "c") == "b"
            && ResolveOrigin(url, p, "b") == "a"
            && !Stable(url, p, "c")
  {
  }
}
