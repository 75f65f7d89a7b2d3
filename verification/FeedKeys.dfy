/** The text keys of WebSocket feeds and the variant families the client computes from them, and the structured names the
    registry reasons about: the two correspond one to one. */
module FeedKeys {
  import opened Wrappers
  import opened Text

  datatype Kind =
    | Depth | PartialDepth | Trade | BookTicker | ContractStatus
    | Orders | Balances | Positions | Settlements | RFQPublic | RFQPrivate

  /** A public feed of one symbol, the one contract-status feed, or a named feed. `levels` is the depth of a partial-depth feed,
      `fast` its accelerated cadence or the one-second cadence of an account stream. */
  datatype FeedID =
    | OfSymbol(kind: Kind, symbol: string, levels: nat, fast: bool)
    | AllContracts
    | Named(kind: Kind, session: bool, fast: bool)

  predicate PerSymbol(k: Kind) {
    k.Depth? || k.PartialDepth? || k.Trade? || k.BookTicker?
  }

  /** The feeds the client's methods can ask for. */
  predicate ValidID(id: FeedID) {
    match id
    case OfSymbol(kind, symbol, levels, fast) =>
      && PerSymbol(kind) && symbol != ""
      && (if kind.PartialDepth? then levels == 5 || levels == 10 || levels == 20 else levels == 0)
      && (fast ==> kind.Depth? || kind.PartialDepth?)
    case AllContracts => true
    case Named(kind, session, fast) =>
      && !PerSymbol(kind) && !kind.ContractStatus?
      && (session ==> kind.Orders? || kind.RFQPrivate?)
      && (fast ==> kind.Balances? || kind.Positions?)
  }

  /** `depthIntervalSuffix`, `partialDepthStreamSuffix` and the constant suffixes. */
  function Suffix(kind: Kind, levels: nat, fast: bool): string {
    match kind
    case Depth => "depth" + (if fast then "@100ms" else "")
    case PartialDepth =>
      (if levels == 5 then "depth5" else if levels == 10 then "depth10" else "depth20") + (if fast then "@100ms" else "")
    case Trade => "trade"
    case BookTicker => "bookTicker"
    case _ => ""
  }

  function Prefix(kind: Kind): string {
    match kind
    case Depth => "depth"
    case PartialDepth => "partialDepth"
    case Trade => "trade"
    case BookTicker => "bookTicker"
    case _ => ""
  }

  function Base(kind: Kind): string {
    match kind
    case Orders => "orders"
    case Balances => "balances"
    case Positions => "positions"
    case Settlements => "settlements"
    case _ => "requestForQuote"
  }

  /** What follows a named feed's base: the scope and the cadence. */
  function Tail(kind: Kind, session: bool, fast: bool): string {
    if kind.RFQPublic? then ""
    else if session then "@session"
    else if fast then "@account@1s"
    else "@account"
  }

  /** The key of `activeFeeds`. */
  function Key(id: FeedID): string {
    match id
    case OfSymbol(kind, symbol, levels, fast) => Prefix(kind) + (":" + (symbol + ("@" + Suffix(kind, levels, fast))))
    case AllContracts => "contractStatus"
    case Named(kind, session, fast) => Base(kind) + Tail(kind, session, fast)
  }

  const COLON: set<char> := {':'}
  const AT_SIGN: set<char> := {'@'}

  // ---- keys tell feeds apart ----

  lemma PrefixesDiffer(a: Kind, b: Kind)
    requires PerSymbol(a) && PerSymbol(b) && Prefix(a) == Prefix(b)
    ensures a == b
  {
    assert |"depth"| == 5 && |"partialDepth"| == 12 && |"trade"| == 5 && |"bookTicker"| == 10;
    assert "depth"[0] == 'd' && "trade"[0] == 't';
  }

  lemma PrefixPlain(k: Kind)
    requires PerSymbol(k)
    ensures Without(Prefix(k), COLON)
  {
  }

  /** The last characters of two suffixes of a kind tell them apart, whatever comes before. */
  lemma SuffixesDiffer(kind: Kind, l: nat, f: bool, m: nat, g: bool, x: string, y: string)
    requires ValidID(OfSymbol(kind, "X", l, f)) && ValidID(OfSymbol(kind, "X", m, g))
    requires x + ("@" + Suffix(kind, l, f)) == y + ("@" + Suffix(kind, m, g))
    ensures l == m && f == g && x == y
  {
    var s, t := "@" + Suffix(kind, l, f), "@" + Suffix(kind, m, g);
    var z := x + s;
    assert z == y + t;
    SameEnds(x, s, y, t, 1);
    SuffixEnds(kind, l, f);
    SuffixEnds(kind, m, g);
    if kind.PartialDepth? {
      SameEnds(x, s, y, t, 2);
      SameEnds(x, s, y, t, 7);
      SameEnds(x, s, y, t, 8);
    }
    assert x == z[..|z| - |s|] && y == z[..|z| - |t|];
  }

  lemma SameEnds(x: string, s: string, y: string, t: string, k: nat)
    requires x + s == y + t && 1 <= k
    ensures k <= |s| && k <= |t| ==> s[|s| - k] == t[|t| - k]
  {
    if k <= |s| && k <= |t| {
      assert (x + s)[|x + s| - k] == s[|s| - k];
      assert (y + t)[|y + t| - k] == t[|t| - k];
    }
  }

  /** The characters that matter at the end of a suffix. */
  lemma SuffixEnds(kind: Kind, l: nat, f: bool)
    requires ValidID(OfSymbol(kind, "X", l, f))
    ensures var s := "@" + Suffix(kind, l, f);
            && |s| >= 6
            && (kind.Depth? ==> s[|s| - 1] == if f then 's' else 'h')
            && (kind.PartialDepth? ==>
              && |s| >= 7
              && s[|s| - 1] == (if f then 's' else if l == 5 then '5' else '0')
              && (!f ==> s[|s| - 2] == if l == 5 then 'h' else if l == 10 then '1' else '2')
              && (f ==> (|s| >= 13 && s[|s| - 7] == (if l == 5 then '5' else '0')
                         && s[|s| - 8] == if l == 5 then 'h' else if l == 10 then '1' else '2')))
  {
  }

  lemma BasePlain(kind: Kind)
    ensures Without(Base(kind), AT_SIGN) && Without(Base(kind), COLON)
  {
  }

  lemma TailPlain(kind: Kind, session: bool, fast: bool)
    ensures Without(Tail(kind, session, fast), COLON)
    ensures Tail(kind, session, fast) == "" || Tail(kind, session, fast)[0] == '@'
  {
  }

  lemma NamedPlain(kind: Kind, session: bool, fast: bool)
    ensures Without(Base(kind), AT_SIGN) && Without(Base(kind) + Tail(kind, session, fast), COLON)
    ensures Tail(kind, session, fast) == "" || Tail(kind, session, fast)[0] == '@'
  {
    hide Base, Tail;
    BasePlain(kind);
    TailPlain(kind, session, fast);
  }

  lemma TailsDiffer(a: FeedID, b: FeedID)
    requires ValidID(a) && ValidID(b) && a.Named? && b.Named?
    requires Base(a.kind) == Base(b.kind) && Tail(a.kind, a.session, a.fast) == Tail(b.kind, b.session, b.fast)
    ensures a == b
  {
    BasesDiffer(a.kind, b.kind);
    assert |"@session"| == 8 && |"@account"| == 8 && |"@account@1s"| == 11;
    assert "@session"[1] == 's' && "@account"[1] == 'a';
  }

  lemma BasesDiffer(a: Kind, b: Kind)
    requires !PerSymbol(a) && !PerSymbol(b) && !a.ContractStatus? && !b.ContractStatus? && Base(a) == Base(b)
    ensures a == b || ((a.RFQPublic? || a.RFQPrivate?) && (b.RFQPublic? || b.RFQPrivate?))
  {
    assert |"orders"| == 6 && |"balances"| == 8 && |"positions"| == 9 && |"settlements"| == 11 && |"requestForQuote"| == 15;
  }

  lemma NamedKeysDiffer(a: FeedID, b: FeedID)
    requires ValidID(a) && ValidID(b) && a.Named? && b.Named? && Key(a) == Key(b)
    ensures a == b
  {
    hide Base, Tail;
    var s, t := Tail(a.kind, a.session, a.fast), Tail(b.kind, b.session, b.fast);
    NamedPlain(a.kind, a.session, a.fast);
    NamedPlain(b.kind, b.session, b.fast);
    IndexOfSplit(Base(a.kind), s, AT_SIGN);
    IndexOfSplit(Base(b.kind), t, AT_SIGN);
    var z := Key(a);
    assert z == Base(a.kind) + s && z == Base(b.kind) + t;
    if s == "" {
      assert t == "" && z == Base(a.kind) && z == Base(b.kind);
    } else {
      assert t != "";
      assert Base(a.kind) == z[..|Base(a.kind)|] && Base(b.kind) == z[..|Base(b.kind)|];
      assert s == z[|Base(a.kind)|..] && t == z[|Base(b.kind)|..];
    }
    TailsDiffer(a, b);
  }

  lemma SymbolKeysDiffer(a: FeedID, b: FeedID)
    requires ValidID(a) && ValidID(b) && a.OfSymbol? && b.OfSymbol? && Key(a) == Key(b)
    ensures a == b
  {
    hide Prefix, Suffix;
    var x := a.symbol + ("@" + Suffix(a.kind, a.levels, a.fast));
    var y := b.symbol + ("@" + Suffix(b.kind, b.levels, b.fast));
    PrefixPlain(a.kind);
    PrefixPlain(b.kind);
    IndexOfSplit(Prefix(a.kind), ":" + x, COLON);
    IndexOfSplit(Prefix(b.kind), ":" + y, COLON);
    var z := Key(a);
    assert z == Prefix(a.kind) + (":" + x) && z == Prefix(b.kind) + (":" + y);
    assert Prefix(a.kind) == z[..|Prefix(a.kind)|] && Prefix(b.kind) == z[..|Prefix(b.kind)|];
    PrefixesDiffer(a.kind, b.kind);
    assert x == z[|Prefix(a.kind)| + 1..] && y == z[|Prefix(b.kind)| + 1..];
    SuffixesDiffer(a.kind, a.levels, a.fast, b.levels, b.fast, a.symbol, b.symbol);
  }

  lemma ColonAt(id: FeedID)
    requires ValidID(id)
    ensures IndexOf(Key(id), COLON) >= 0 <==> id.OfSymbol?
  {
    match id
    case OfSymbol(kind, symbol, levels, fast) =>
      hide Prefix, Suffix;
      PrefixPlain(kind);
      IndexOfSplit(Prefix(kind), ":" + (symbol + ("@" + Suffix(kind, levels, fast))), COLON);
    case AllContracts =>
      assert Without("contractStatus", COLON);
    case Named(kind, session, fast) =>
      NamedPlain(kind, session, fast);
  }

  lemma AtSign(id: FeedID)
    requires ValidID(id) && id.Named?
    ensures Key(id) != "contractStatus"
  {
    hide Tail;
    assert Base(id.kind)[0] != 'c' && Key(id)[0] == Base(id.kind)[0];
    assert "contractStatus"[0] == 'c';
  }

  /** Different feeds have different keys; all contract-status symbols share one. */
  lemma KeysTellApart(a: FeedID, b: FeedID)
    requires ValidID(a) && ValidID(b)
    ensures Key(a) == Key(b) <==> a == b
  {
    hide Key, ValidID;
    if Key(a) == Key(b) {
      ColonAt(a);
      ColonAt(b);
      if a.OfSymbol? {
        SymbolKeysDiffer(a, b);
      } else if a.Named? && b.Named? {
        NamedKeysDiffer(a, b);
      } else {
        ContractKey();
        if a.Named? {
          AtSign(a);
        } else if b.Named? {
          AtSign(b);
        }
      }
    }
  }

  lemma ContractKey()
    ensures Key(AllContracts) == "contractStatus"
  {
  }

  // ---- variant families ----

  predicate HasPrefix(s: string, prefix: string) {
    prefix <= s
  }

  /** The text up to the first character of a set, and the rest after it, if there is one: `strings.Cut`. */
  function Cut(s: string, cs: set<char>): Option<(string, string)> {
    var k := IndexOf(s, cs);
    if k < 0 then None else Some((s[..k], s[k + 1..]))
  }

  /** `subscriptionVariantFamily`. */
  function Family(key: string): string {
    if HasPrefix(key, "depth:") || HasPrefix(key, "partialDepth:") then
      match Cut(key, COLON)
      case None => ""
      case Some((_, rest)) =>
        match Cut(rest, AT_SIGN)
        case None => ""
        case Some((symbol, _)) => if symbol == "" then "" else "depth:" + symbol
    else if HasPrefix(key, "orders@") then "orders"
    else if HasPrefix(key, "balances@") then "balances"
    else if HasPrefix(key, "positions@") then "positions"
    else ""
  }

  /** A symbol up to its first `@`. */
  function Head(symbol: string): string {
    var k := IndexOf(symbol, AT_SIGN);
    if k < 0 then symbol else symbol[..k]
  }

  /** The family of a feed by its name: both kinds of depth of one symbol are one family, and so are the scopes or cadences of
      an account stream. A symbol that begins with `@` belongs to none. */
  function FamilyOf(id: FeedID): string {
    match id
    case OfSymbol(kind, symbol, _, _) =>
      if (kind.Depth? || kind.PartialDepth?) && Head(symbol) != "" then "depth:" + Head(symbol) else ""
    case AllContracts => ""
    case Named(kind, _, _) => if kind.Orders? || kind.Balances? || kind.Positions? then Base(kind) else ""
  }

  lemma DepthFamily(id: FeedID)
    requires ValidID(id) && id.OfSymbol? && (id.kind.Depth? || id.kind.PartialDepth?)
    ensures Family(Key(id)) == FamilyOf(id)
  {
    var suffix := Suffix(id.kind, id.levels, id.fast);
    hide Suffix, Head;
    var rest := id.symbol + ("@" + suffix);
    assert Key(id) == Prefix(id.kind) + (":" + rest);
    PrefixColon(id.kind, rest);
    PrefixPlain(id.kind);
    hide Prefix, Key;
    IndexOfSplit(Prefix(id.kind), ":" + rest, COLON);
    assert Cut(Prefix(id.kind) + (":" + rest), COLON).value.1 == rest;
    HeadOfRest(id.symbol, suffix);
  }

  lemma PrefixColon(kind: Kind, rest: string)
    requires kind.Depth? || kind.PartialDepth?
    ensures HasPrefix(Prefix(kind) + (":" + rest), if kind.Depth? then "depth:" else "partialDepth:")
  {
    assert "depth:" == "depth" + ":" && "partialDepth:" == "partialDepth" + ":";
    assert Prefix(kind) + (":" + rest) == (Prefix(kind) + ":") + rest;
  }

  lemma OtherFamily(id: FeedID)
    requires ValidID(id) && id.OfSymbol? && (id.kind.Trade? || id.kind.BookTicker?)
    ensures Family(Key(id)) == FamilyOf(id)
  {
    hide Suffix;
    var key := Key(id);
    assert key[0] == Prefix(id.kind)[0] && key[1] == Prefix(id.kind)[1];
    assert "trade"[0] == 't' && "bookTicker"[0] == 'b' && "bookTicker"[1] == 'o';
    assert "depth:"[0] == 'd' && "partialDepth:"[0] == 'p' && "orders@"[0] == 'o' && "balances@"[0] == 'b';
    assert "balances@"[1] == 'a' && "positions@"[0] == 'p';
  }

  lemma HeadOfRest(symbol: string, suffix: string)
    ensures var cut := Cut(symbol + ("@" + suffix), AT_SIGN); cut.Some? && cut.value.0 == Head(symbol)
  {
    var k := IndexOf(symbol, AT_SIGN);
    if k < 0 {
      IndexOfSplit(symbol, "@" + suffix, AT_SIGN);
      assert (symbol + ("@" + suffix))[..|symbol|] == symbol;
    } else {
      var z := symbol + ("@" + suffix);
      IndexOfSplit(symbol[..k], z[k..], AT_SIGN);
      assert z == symbol[..k] + z[k..];
      assert z[..k] == symbol[..k];
    }
  }

  lemma NamedFamily(id: FeedID)
    requires ValidID(id) && id.Named?
    ensures Family(Key(id)) == FamilyOf(id)
  {
    var key := Key(id);
    assert "depth:"[0] == 'd' && "partialDepth:"[1] == 'a' && "orders@"[0] == 'o' && "balances@"[0] == 'b' && "positions@"[1] == 'o';
    assert "positions@"[0] == 'p';
    assert key[0] == Base(id.kind)[0] && key[1] == Base(id.kind)[1];
    if id.kind.Orders? {
      assert key[..7] == "orders@";
    } else if id.kind.Balances? {
      assert key[..9] == "balances@";
    } else if id.kind.Positions? {
      assert key[..10] == "positions@";
    }
  }

  /** The family computed from the key's text is the feed's. */
  lemma FamilyOfKey(id: FeedID)
    requires ValidID(id)
    ensures Family(Key(id)) == FamilyOf(id)
  {
    match id
    case OfSymbol(_, _, _, _) =>
      hide Family, Key, FamilyOf;
      if id.kind.Depth? || id.kind.PartialDepth? {
        DepthFamily(id);
      } else {
        OtherFamily(id);
      }
    case Named(_, _, _) =>
      hide Family, Key;
      NamedFamily(id);
    case AllContracts =>
      assert "contractStatus"[0] == 'c';
  }

  /** A depth feed belongs to a family unless its symbol begins with `@`. */
  lemma DepthHasFamily(id: FeedID)
    requires ValidID(id) && id.OfSymbol? && (id.kind.Depth? || id.kind.PartialDepth?)
    ensures FamilyOf(id) == "" <==> id.symbol[0] == '@'
  {
    var k := IndexOf(id.symbol, AT_SIGN);
    assert |"depth:" + Head(id.symbol)| >= 6;
  }

  /** Two feeds are variants of one another exactly when both are depth feeds, full or partial, of symbols that agree up to
      their first at sign and do not begin with it, or both are the orders, the balances or the positions stream. */
  lemma SameFamilyMeans(a: FeedID, b: FeedID)
    requires ValidID(a) && ValidID(b)
    ensures FamilyOf(a) != "" && FamilyOf(a) == FamilyOf(b) <==>
      || (&& a.OfSymbol? && b.OfSymbol? && (a.kind.Depth? || a.kind.PartialDepth?) && (b.kind.Depth? || b.kind.PartialDepth?)
          && a.symbol[0] != '@' && b.symbol[0] != '@'
          && exists k: nat :: EndsHead(a.symbol, k) && EndsHead(b.symbol, k) && a.symbol[..k] == b.symbol[..k])
      || (a.Named? && b.Named? && a.kind == b.kind && (a.kind.Orders? || a.kind.Balances? || a.kind.Positions?))
  {
    if a.OfSymbol? && b.OfSymbol? && (a.kind.Depth? || a.kind.PartialDepth?) && (b.kind.Depth? || b.kind.PartialDepth?) {
      DepthHasFamily(a);
      DepthHasFamily(b);
      SameHead(a.symbol, b.symbol);
      assert ("depth:" + Head(a.symbol))[6..] == Head(a.symbol) && ("depth:" + Head(b.symbol))[6..] == Head(b.symbol);
    } else if a.OfSymbol? || b.OfSymbol? {
      hide Head;
      assert "depth:"[0] == 'd' && Base(Orders)[0] == 'o' && Base(Balances)[0] == 'b' && Base(Positions)[0] == 'p';
      assert FamilyOf(a) != "" && a.OfSymbol? ==> FamilyOf(a)[0] == 'd';
      assert FamilyOf(b) != "" && b.OfSymbol? ==> FamilyOf(b)[0] == 'd';
    } else if a.Named? && b.Named? {
      assert Base(Orders)[0] == 'o' && Base(Balances)[0] == 'b' && Base(Positions)[0] == 'p';
    }
  }

  /** The symbol goes on to position `k` without an at sign, and ends there or has one there. */
  ghost predicate EndsHead(symbol: string, k: nat) {
    k <= |symbol| && (forall i | 0 <= i < k :: symbol[i] != '@') && (k == |symbol| || symbol[k] == '@')
  }

  lemma SameHead(a: string, b: string)
    ensures Head(a) == Head(b) <==> exists k: nat :: EndsHead(a, k) && EndsHead(b, k) && a[..k] == b[..k]
  {
    HeadEnds(a);
    HeadEnds(b);
    if Head(a) == Head(b) {
      assert EndsHead(a, |Head(a)|) && EndsHead(b, |Head(a)|) && a[..|Head(a)|] == b[..|Head(a)|];
    }
    if k: nat :| EndsHead(a, k) && EndsHead(b, k) && a[..k] == b[..k] {
      OneHead(a, k, |Head(a)|);
      OneHead(b, k, |Head(b)|);
    }
  }

  lemma HeadEnds(a: string)
    ensures |Head(a)| <= |a| && Head(a) == a[..|Head(a)|] && EndsHead(a, |Head(a)|)
  {
    var k := IndexOf(a, AT_SIGN);
    if k >= 0 {
      assert forall i | 0 <= i < k :: a[i] != '@';
    }
  }

  lemma OneHead(a: string, k: nat, m: nat)
    requires EndsHead(a, k) && EndsHead(a, m)
    ensures k == m
  {
  }
}
