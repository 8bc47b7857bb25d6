/**
  The client's address key: the text of the source address followed by the text of the destination address, with
  nothing in between. Says which flows share a key, and what that does to the channel association.
 */
module FlowKeys {
  import opened ChannelNumbers
  import opened ChannelProtocol
  import opened ChannelProtocolProof

  function Digit(n: nat): char
    requires n < 10
  {
    '0' + n as char
  }

  function Dec(n: nat): string {
    if n < 10 then [Digit(n)] else Dec(n / 10) + [Digit(n % 10)]
  }

  function AddrText(x: Addr): string {
    Dec(x.a) + ['.'] + (Dec(x.b) + ['.'] + (Dec(x.c) + ['.'] + (Dec(x.d) + [':'] + Dec(x.port))))
  }

  function KeyText(f: Flow): string {
    AddrText(f.source) + AddrText(f.dest)
  }

  // ---------- Reading a key back ----------

  lemma {:induction false} DecIsDigits(n: nat)
    ensures Dec(n) != [] && forall i :: 0 <= i < |Dec(n)| ==> '0' <= Dec(n)[i] <= '9'
  {
    if n >= 10 {
      DecIsDigits(n / 10);
    }
  }

  /** The number that decimal digits stand for. */
  function Value(s: string): int {
    if s == [] then 0 else 10 * Value(s[..|s| - 1]) + (s[|s| - 1] as int - '0' as int)
  }

  /** The text of a number is its decimal notation, without leading zeros. */
  lemma {:induction false} DecIsDecimal(n: nat)
    ensures Value(Dec(n)) == n && Dec(n) != [] && (n > 0 ==> Dec(n)[0] != '0')
  {
    var s := Dec(n);
    if n >= 10 {
      DecIsDecimal(n / 10);
      assert s[..|s| - 1] == Dec(n / 10);
    } else {
      assert s[..0] == [];
    }
  }

  lemma {:induction false} DecIsInjective(m: nat, n: nat)
    requires Dec(m) == Dec(n)
    ensures m == n
  {
    var s, t := Dec(m), Dec(n);
    assert s[|s| - 1] == Digit(m % 10) && t[|t| - 1] == Digit(n % 10);
    DecIsLong(m);
    DecIsLong(n);
    if m >= 10 && n >= 10 {
      assert Dec(m / 10) == s[..|s| - 1] && Dec(n / 10) == t[..|t| - 1];
      DecIsInjective(m / 10, n / 10);
    }
  }

  lemma DecIsLong(n: nat)
    ensures n < 10 <==> |Dec(n)| == 1
  {
    if n >= 10 {
      DecIsDigits(n / 10);
    }
  }

  ghost predicate Lacks(s: string, mark: char) {
    forall i :: 0 <= i < |s| ==> s[i] != mark
  }

  /** The first mark splits a text in one way only. */
  lemma SplitAtMark(p: string, x: string, q: string, y: string, mark: char)
    requires Lacks(p, mark) && Lacks(q, mark) && p + [mark] + x == q + [mark] + y
    ensures p == q && x == y
  {
    var s, t := p + [mark] + x, q + [mark] + y;
    assert s[|p|] == mark && t[|q|] == mark;
    assert forall i :: 0 <= i < |p| ==> s[i] == p[i];
    assert forall i :: 0 <= i < |q| ==> t[i] == q[i];
    assert |p| == |q|;
    assert p == s[..|p|] && q == t[..|q|];
    assert x == s[|p| + 1..] && y == t[|q| + 1..];
  }

  lemma ReadNumber(m: nat, x: string, n: nat, y: string, mark: char)
    requires Dec(m) + [mark] + x == Dec(n) + [mark] + y && (mark == '.' || mark == ':')
    ensures m == n && x == y
  {
    DecIsDigits(m);
    DecIsDigits(n);
    SplitAtMark(Dec(m), x, Dec(n), y, mark);
    DecIsInjective(m, n);
  }

  /** A text behind the first four numbers of an address. */
  lemma ReadIp(x: Addr, s: string, y: Addr, t: string)
    requires Dec(x.a) + ['.'] + (Dec(x.b) + ['.'] + (Dec(x.c) + ['.'] + (Dec(x.d) + [':'] + s)))
          == Dec(y.a) + ['.'] + (Dec(y.b) + ['.'] + (Dec(y.c) + ['.'] + (Dec(y.d) + [':'] + t)))
    ensures (x.a, x.b, x.c, x.d) == (y.a, y.b, y.c, y.d) && s == t
  {
    hide Dec;
    ReadNumber(x.a, Dec(x.b) + ['.'] + (Dec(x.c) + ['.'] + (Dec(x.d) + [':'] + s)),
               y.a, Dec(y.b) + ['.'] + (Dec(y.c) + ['.'] + (Dec(y.d) + [':'] + t)), '.');
    ReadNumber(x.b, Dec(x.c) + ['.'] + (Dec(x.d) + [':'] + s), y.b, Dec(y.c) + ['.'] + (Dec(y.d) + [':'] + t), '.');
    ReadNumber(x.c, Dec(x.d) + [':'] + s, y.c, Dec(y.d) + [':'] + t, '.');
    ReadNumber(x.d, s, y.d, t, ':');
  }

  /** Where the two addresses meet: the digits of the source port run into those of the destination. */
  function Seam(f: Flow): string {
    Dec(f.source.port) + Dec(f.dest.a)
  }

  function Behind(x: Addr): string {
    Dec(x.b) + ['.'] + (Dec(x.c) + ['.'] + (Dec(x.d) + [':'] + Dec(x.port)))
  }

  lemma KeyTextForm(f: Flow)
    ensures var x := f.source;
            KeyText(f) == Dec(x.a) + ['.'] + (Dec(x.b) + ['.'] + (Dec(x.c) + ['.'] + (Dec(x.d) + [':']
                          + (Seam(f) + ['.'] + Behind(f.dest)))))
  {
    hide Dec;
  }

  ghost predicate SameOutside(f: Flow, g: Flow) {
    && (f.source.a, f.source.b, f.source.c, f.source.d) == (g.source.a, g.source.b, g.source.c, g.source.d)
    && (f.dest.b, f.dest.c, f.dest.d, f.dest.port) == (g.dest.b, g.dest.c, g.dest.d, g.dest.port)
  }

  lemma SeamLacksDot(f: Flow)
    ensures Lacks(Seam(f), '.')
  {
    DecIsDigits(f.source.port);
    DecIsDigits(f.dest.a);
  }

  lemma BehindIsInjective(x: Addr, y: Addr)
    requires Behind(x) == Behind(y)
    ensures (x.b, x.c, x.d, x.port) == (y.b, y.c, y.d, y.port)
  {
    hide Dec;
    ReadNumber(x.b, Dec(x.c) + ['.'] + (Dec(x.d) + [':'] + Dec(x.port)),
               y.b, Dec(y.c) + ['.'] + (Dec(y.d) + [':'] + Dec(y.port)), '.');
    ReadNumber(x.c, Dec(x.d) + [':'] + Dec(x.port), y.c, Dec(y.d) + [':'] + Dec(y.port), '.');
    ReadNumber(x.d, Dec(x.port), y.d, Dec(y.port), ':');
    DecIsInjective(x.port, y.port);
  }

  lemma SameBehind(x: Addr, y: Addr)
    requires (x.b, x.c, x.d, x.port) == (y.b, y.c, y.d, y.port)
    ensures Behind(x) == Behind(y)
  {
    hide Dec;
  }

  // ---------- Which flows share a key ----------

  /** Two flows share a key exactly when they agree outside the seam and their seams read the same. */
  lemma KeysMeetExactlyAtTheSeam(f: Flow, g: Flow)
    ensures KeyText(f) == KeyText(g) <==> SameOutside(f, g) && Seam(f) == Seam(g)
  {
    hide Dec, KeyText, Seam, Behind;
    KeyTextForm(f);
    KeyTextForm(g);
    if KeyText(f) == KeyText(g) {
      ReadIp(f.source, Seam(f) + ['.'] + Behind(f.dest), g.source, Seam(g) + ['.'] + Behind(g.dest));
      SeamLacksDot(f);
      SeamLacksDot(g);
      SplitAtMark(Seam(f), Behind(f.dest), Seam(g), Behind(g.dest), '.');
      BehindIsInjective(f.dest, g.dest);
    }
    if SameOutside(f, g) && Seam(f) == Seam(g) {
      SameBehind(f.dest, g.dest);
    }
  }

  /** Flows whose source ports have the same number of digits never share a key. */
  lemma PortsOfOneLengthKeepKeysApart(f: Flow, g: Flow)
    requires KeyText(f) == KeyText(g) && |Dec(f.source.port)| == |Dec(g.source.port)|
    ensures f == g
  {
    hide Dec, KeyText;
    KeysMeetExactlyAtTheSeam(f, g);
    assert Dec(f.source.port) == Seam(f)[..|Dec(f.source.port)|] && Dec(f.dest.a) == Seam(f)[|Dec(f.source.port)|..];
    assert Dec(g.source.port) == Seam(g)[..|Dec(g.source.port)|] && Dec(g.dest.a) == Seam(g)[|Dec(g.source.port)|..];
    DecIsInjective(f.source.port, g.source.port);
    DecIsInjective(f.dest.a, g.dest.a);
  }

  const PORT_1 := Flow(Addr(1, 2, 3, 4, 1), Addr(12, 3, 4, 5, 80))
  const PORT_11 := Flow(Addr(1, 2, 3, 4, 11), Addr(2, 3, 4, 5, 80))

  /** Both flows have the key "1.2.3.4:112.3.4.5:80". */
  lemma KeysCollide()
    ensures KeyText(PORT_1) == KeyText(PORT_11) == "1.2.3.4:112.3.4.5:80" && PORT_1 != PORT_11
  {
    assert Dec(11) == Dec(1) + [Digit(1)];
    assert Dec(12) == Dec(1) + [Digit(2)];
    assert Seam(PORT_1) == Dec(1) + Dec(1) + [Digit(2)] == Seam(PORT_11);
    KeysMeetExactlyAtTheSeam(PORT_1, PORT_11);
    hide Dec, KeyText, Seam;
    KeyOfPort1();
  }

  lemma KeyOfPort1()
    ensures KeyText(PORT_1) == "1.2.3.4:112.3.4.5:80"
  {
    var one, two, three, four, five := "1", "2", "3", "4", "5";
    assert Dec(1) == one && Dec(2) == two && Dec(3) == three && Dec(4) == four && Dec(5) == five;
    assert Dec(12) == Dec(1) + [Digit(2)] == "12" && Dec(80) == Dec(8) + [Digit(0)] == "80";
    hide Dec;
    assert AddrText(PORT_1.source) == "1.2.3.4:1";
    assert AddrText(PORT_1.dest) == "12.3.4.5:80";
  }

  // ---------- The protocol with these keys ----------

  /** No two of the flows read the same at the seam and agree outside it. */
  ghost predicate SeamsApart(flows: set<Flow>) {
    forall f, g :: f in flows && g in flows && SameOutside(f, g) && Seam(f) == Seam(g) ==> f == g
  }

  /**
    Which traffic is safe: runs of these flows attribute every payload correctly exactly when their seams are
    apart.
   */
  lemma TextKeysSafeExactlyWhenSeamsApart(flows: set<Flow>)
    ensures SafeFor(KeyText, flows) <==> SeamsApart(flows)
  {
    hide SafeFor, KeyText, Seam, SameOutside;
    SafeExactlyWhenKeysApart(KeyText, flows);
    forall f, g | f in flows && g in flows
      ensures KeyText(f) == KeyText(g) <==> SameOutside(f, g) && Seam(f) == Seam(g)
    {
      KeysMeetExactlyAtTheSeam(f, g);
    }
  }

  /** Traffic whose source ports all have the same number of digits is safe. */
  lemma PortsOfOneLengthAreSafe(flows: set<Flow>)
    requires forall f, g :: f in flows && g in flows ==> |Dec(f.source.port)| == |Dec(g.source.port)|
    ensures SafeFor(KeyText, flows)
  {
    hide SafeFor, KeyText, Dec;
    SafeExactlyWhenKeysApart(KeyText, flows);
    forall f, g | f in flows && g in flows && KeyText(f) == KeyText(g) ensures f == g {
      PortsOfOneLengthKeepKeysApart(f, g);
    }
  }

  /** Two flows are enough: some run of theirs hands a client's payload to the wrong remote address. */
  lemma TextKeysMisdeliver()
    ensures !SafeFor(KeyText, {PORT_1, PORT_11}) && !NeverMisdelivers(KeyText)
  {
    hide SafeFor, NeverMisdelivers;
    KeysCollide();
    SafeExactlyWhenKeysApart(KeyText, {PORT_1, PORT_11});
    NeverMisdeliversExactlyWhenInjective(KeyText);
  }

  /** A wrong attribution is confined to the server and to the seam, and needs source ports of different lengths. */
  lemma {:induction false} MisdeliveryIsConfinedToTheSeam(events: seq<Event>, i: nat)
    requires var x := Run(KeyText, events); |x.server.grants| <= ONES && i < |x.deliveries|
    ensures var d := Run(KeyText, events).deliveries[i];
            d.meant == d.got
            || (d.atServer && SameOutside(d.meant, d.got) && Seam(d.meant) == Seam(d.got)
                && |Dec(d.meant.source.port)| != |Dec(d.got.source.port)|)
  {
    hide Run, KeyText, Dec;
    RunKeeps(KeyText, events);
    var d := Run(KeyText, events).deliveries[i];
    assert DeliveryOk(KeyText, d);
    if d.meant != d.got {
      KeysMeetExactlyAtTheSeam(d.meant, d.got);
      if |Dec(d.meant.source.port)| == |Dec(d.got.source.port)| {
        PortsOfOneLengthKeepKeysApart(d.meant, d.got);
      }
    }
  }
}
