/** The key under which a reading is cached (internal/collector/manager.go): device, point,
    register type and server joined by a bar; the address is not part of it. */
module Keys {
  import opened Bytes
  import opened Floats

  /** The register types that `readPoint` reads; for others it returns an error. */
  datatype Register = Holding | Input | Coil | Discrete {
    function Text(): (text: string)
      ensures |text| > 0
    {
      match this
      case Holding => "holding"
      case Input => "input"
      case Coil => "coil"
      case Discrete => "discrete"
    }
  }

  /** The parts of a point that its key is made of. */
  datatype Names = Names(device: string, point: string, register: Register, server: string)

  /** A configured point: its names, its address, and how its registers are decoded. */
  datatype Point = Point(names: Names, address: word, dataType: string, byteOrder: string, scale: F64, offset: F64)

  function Key(n: Names): string {
    n.device + "|" + n.point + "|" + n.register.Text() + "|" + n.server
  }

  /** The key as it is written out. */
  lemma KeyOnText(d: string, p: string, s: string)
    ensures Key(Names(d, p, Holding, s)) == d + "|" + p + "|holding|" + s
    ensures Key(Names(d, p, Input, s)) == d + "|" + p + "|input|" + s
    ensures Key(Names(d, p, Coil, s)) == d + "|" + p + "|coil|" + s
    ensures Key(Names(d, p, Discrete, s)) == d + "|" + p + "|discrete|" + s
  {
    assert "|holding|" == "|" + "holding" + "|" && "|input|" == "|" + "input" + "|";
    assert "|coil|" == "|" + "coil" + "|" && "|discrete|" == "|" + "discrete" + "|";
  }

  predicate NoBar(s: string) {
    '|' !in s
  }

  /** The first segment of `s`, if a bar ends it. */
  function Segment(s: string): (i: nat)
    ensures i <= |s| && NoBar(s[..i]) && (i < |s| ==> s[i] == '|')
    decreases s
  {
    if s == [] || s[0] == '|' then 0
    else
      assert s[..1 + Segment(s[1..])] == [s[0]] + s[1..][..Segment(s[1..])];
      1 + Segment(s[1..])
  }

  predicate IsRegister(s: string) {
    s == "holding" || s == "input" || s == "coil" || s == "discrete"
  }

  /** Some segment of `s` that a bar ends is a register type. */
  predicate Inner(s: string)
    decreases |s|
  {
    var i := Segment(s);
    i < |s| && (IsRegister(s[..i]) || Inner(s[i + 1..]))
  }

  /** No name confuses the key: the server may contain bars, but no register type between them. */
  predicate Plain(n: Names) {
    NoBar(n.device) && NoBar(n.point) && !Inner(n.server)
  }

  // ---------------------------------------------------------------------------
  // Cutting at bars
  // ---------------------------------------------------------------------------

  lemma TextIsRegister(r: Register)
    ensures NoBar(r.Text()) && IsRegister(r.Text())
  {
  }

  lemma RegisterOf(s: string) returns (r: Register)
    requires IsRegister(s)
    ensures r.Text() == s
  {
    r := if s == "holding" then Holding else if s == "input" then Input else if s == "coil" then Coil else Discrete;
  }

  lemma TextInjective(r: Register, r': Register)
    requires r.Text() == r'.Text()
    ensures r == r'
  {
    assert "holding"[0] == 'h' && "input"[0] == 'i' && "coil"[0] == 'c' && "discrete"[0] == 'd';
  }

  lemma BarPlace(a: string, b: string)
    requires NoBar(a)
    ensures var s := a + "|" + b;
            s[|a|] == '|' && (forall i | 0 <= i < |a| :: s[i] != '|') && s[..|a|] == a && s[|a| + 1..] == b
  {
  }

  lemma FirstBar(a: string, b: string, c: string, d: string)
    requires NoBar(a) && NoBar(c) && a + "|" + b == c + "|" + d
    ensures a == c && b == d
  {
    BarPlace(a, b);
    BarPlace(c, d);
  }

  /** Cutting at the first bar. */
  lemma SplitAtBar(a: string) returns (x: string, y: string)
    requires !NoBar(a)
    ensures a == x + "|" + y && NoBar(x)
  {
    var i := Segment(a);
    assert a[..|a|] == a;
    x, y := a[..i], a[i + 1..];
  }

  lemma SegmentIs(a: string, b: string)
    requires NoBar(a)
    ensures Segment(a + "|" + b) == |a|
  {
    hide NoBar;
    var s := a + "|" + b;
    var i := Segment(s);
    BarPlace(a, b);
    if i > |a| {
      assert s[..i][|a|] == '|';
      BarIn(s[..i], |a|);
    }
  }

  lemma BarIn(s: string, i: nat)
    requires i < |s| && s[i] == '|'
    ensures !NoBar(s)
  {
  }

  lemma InnerStep(a: string, b: string)
    requires NoBar(a)
    ensures Inner(a + "|" + b) <==> IsRegister(a) || Inner(b)
  {
    hide Segment, IsRegister;
    SegmentIs(a, b);
    BarPlace(a, b);
  }

  /** A register type between bars is an inner one, whatever is before it. */
  lemma {:induction false} RegisterInside(a: string, r: Register, b: string)
    ensures Inner(r.Text() + "|" + b)
    ensures Inner(a + "|" + (r.Text() + "|" + b))
    decreases |a|
  {
    hide NoBar, IsRegister, Inner;
    TextIsRegister(r);
    InnerStep(r.Text(), b);
    var tail := r.Text() + "|" + b;
    if NoBar(a) {
      InnerStep(a, tail);
    } else {
      var x, y := SplitAtBar(a);
      RegisterInside(y, r, b);
      InnerStep(x, y + "|" + tail);
      assert a + "|" + tail == x + "|" + (y + "|" + tail);
    }
  }

  lemma Regroup(a: string, b: string, c: string)
    ensures a + "|" + (b + "|" + c) == a + "|" + b + "|" + c
  {
  }

  lemma CutInner(s: string) returns (first: string, rest: string)
    requires Inner(s)
    ensures s == first + "|" + rest && (IsRegister(first) || Inner(rest))
  {
    hide NoBar, IsRegister;
    var i := Segment(s);
    first, rest := s[..i], s[i + 1..];
  }

  /** Where an inner register type is. */
  lemma {:induction false} InsideRegister(head: string, s: string) returns (x: string, r: Register, b: string)
    requires Inner(s)
    ensures head + "|" + s == x + "|" + (r.Text() + "|" + b) && |x| >= |head|
    decreases |s|
  {
    hide IsRegister, Inner;
    var first, rest := CutInner(s);
    if IsRegister(first) {
      r := RegisterOf(first);
      x, b := head, rest;
    } else {
      Regroup(head, first, rest);
      x, r, b := InsideRegister(head + "|" + first, rest);
    }
  }

  // ---------------------------------------------------------------------------
  // Which names have their key to themselves
  // ---------------------------------------------------------------------------

  /** No point with other names has this key. */
  ghost predicate OwnKey(n: Names) {
    forall n' | Key(n') == Key(n) :: n' == n
  }

  lemma KeyNests(n: Names)
    ensures Key(n) == n.device + "|" + (n.point + "|" + (n.register.Text() + "|" + n.server))
  {
    var text := n.register.Text();
    assert Key(n) == n.device + "|" + n.point + "|" + text + "|" + n.server;
  }

  /** If something with a bar in it can stand for the point name, a register type is inside the
      server name. */
  lemma BarBefore(p: string, r: Register, s: string, x: string, r': Register, s': string)
    requires NoBar(p) && !NoBar(x)
    requires p + "|" + (r.Text() + "|" + s) == x + "|" + (r'.Text() + "|" + s')
    ensures Inner(s)
  {
    hide NoBar, Inner;
    TextIsRegister(r);
    var u, w := SplitAtBar(x);
    var tail := r'.Text() + "|" + s';
    assert x + "|" + tail == u + "|" + (w + "|" + tail);
    FirstBar(p, r.Text() + "|" + s, u, w + "|" + tail);
    if NoBar(w) {
      FirstBar(r.Text(), s, w, tail);
      RegisterInside("", r', s');
    } else {
      var u', w' := SplitAtBar(w);
      assert w + "|" + tail == u' + "|" + (w' + "|" + tail);
      FirstBar(r.Text(), s, u', w' + "|" + tail);
      RegisterInside(w', r', s');
    }
  }

  lemma PlainOwnsKey(n: Names, n': Names)
    requires Plain(n) && Key(n') == Key(n)
    ensures n' == n
  {
    hide NoBar, Inner, Key;
    KeyNests(n);
    KeyNests(n');
    TextIsRegister(n.register);
    TextIsRegister(n'.register);
    var rest, rest' := n.register.Text() + "|" + n.server, n'.register.Text() + "|" + n'.server;
    if !NoBar(n'.device) {
      var u, v := SplitAtBar(n'.device);
      assert n'.device + "|" + (n'.point + "|" + rest') == u + "|" + (v + "|" + n'.point + "|" + rest');
      FirstBar(n.device, n.point + "|" + rest, u, v + "|" + n'.point + "|" + rest');
      BarInside(v, n'.point);
      BarBefore(n.point, n.register, n.server, v + "|" + n'.point, n'.register, n'.server);
    } else {
      FirstBar(n.device, n.point + "|" + rest, n'.device, n'.point + "|" + rest');
      if !NoBar(n'.point) {
        BarBefore(n.point, n.register, n.server, n'.point, n'.register, n'.server);
      } else {
        FirstBar(n.point, rest, n'.point, rest');
        FirstBar(n.register.Text(), n.server, n'.register.Text(), n'.server);
        TextInjective(n.register, n'.register);
      }
    }
  }

  lemma BarInside(a: string, b: string)
    ensures !NoBar(a + "|" + b)
  {
    BarIn(a + "|" + b, |a|);
  }

  /** Names that share the key of names that are not plain. */
  lemma OthersShare(n: Names) returns (n': Names)
    requires !Plain(n)
    ensures Key(n') == Key(n) && n' != n
  {
    hide NoBar, Inner;
    var text := n.register.Text();
    if !NoBar(n.device) {
      var x, y := SplitAtBar(n.device);
      n' := Names(x, y + "|" + n.point, n.register, n.server);
      assert Key(n) == x + "|" + y + "|" + n.point + "|" + text + "|" + n.server;
      assert Key(n') == x + "|" + (y + "|" + n.point) + "|" + text + "|" + n.server;
      assert x + "|" + (y + "|" + n.point) == x + "|" + y + "|" + n.point;
    } else if !NoBar(n.point) {
      var x, y := SplitAtBar(n.point);
      n' := Names(n.device + "|" + x, y, n.register, n.server);
      assert n.device + "|" + n.point == n.device + "|" + x + "|" + y;
    } else {
      var x, r, b := InsideRegister(n.point + "|" + text, n.server);
      n' := Names(n.device, x, r, b);
      KeyNests(n);
      KeyNests(n');
      assert n.point + "|" + text + "|" + n.server == n.point + "|" + (text + "|" + n.server);
    }
  }

  /** The key tells the names apart from all others exactly when neither device nor point name
      contains a bar and the server name contains no register type that a bar ends. */
  lemma OwnKeyExactly(n: Names)
    ensures OwnKey(n) <==> Plain(n)
  {
    hide Plain, Key;
    if Plain(n) {
      forall n' | Key(n') == Key(n)
        ensures n' == n
      {
        PlainOwnsKey(n, n');
      }
    } else {
      var n' := OthersShare(n);
    }
  }

  // ---------------------------------------------------------------------------
  // Configured points
  // ---------------------------------------------------------------------------

  /** The points of each collector, one collector a device. */
  type Fleet = seq<seq<Point>>

  predicate Polls(fleet: Fleet, c: nat, p: Point) {
    c < |fleet| && p in fleet[c]
  }

  /** No two different points of the fleet share a key. */
  ghost predicate KeysApart(fleet: Fleet) {
    forall c, p, c', p' | Polls(fleet, c, p) && Polls(fleet, c', p') && Key(p.names) == Key(p'.names) :: p == p'
  }

  ghost predicate NamesApart(fleet: Fleet) {
    forall c, p, c', p' | Polls(fleet, c, p) && Polls(fleet, c', p') && p.names == p'.names :: p == p'
  }

  /** With plain names, points are kept apart exactly when no two of them have the same names; their
      addresses do not count. */
  lemma KeysApartExactly(fleet: Fleet)
    requires forall c, p | Polls(fleet, c, p) :: Plain(p.names)
    ensures KeysApart(fleet) <==> NamesApart(fleet)
  {
    hide Key, Plain;
    if NamesApart(fleet) {
      forall c, p, c', p' | Polls(fleet, c, p) && Polls(fleet, c', p') && Key(p.names) == Key(p'.names)
        ensures p == p'
      {
        PlainOwnsKey(p.names, p'.names);
      }
    }
  }
}
