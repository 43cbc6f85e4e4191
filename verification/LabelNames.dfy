/** Label strings: the context's prefix, the purpose, the number. Different labels are
    never written the same way, nor are the names derived from them by a suffix. */
module LabelNames {
  import opened Syntax
  import opened Ir
  import opened Lower
  import opened LabelUniqueness

  /** What follows the root prefix `c0`: the child numbers, then the purpose. */
  function Path(prefix: seq<nat>, stem: string): string {
    if prefix == [] then "_" + stem else "_" + Decimal(prefix[0]) + Path(prefix[1..], stem)
  }

  function Text(l: Label): string
    requires l.CodeLabel?
  {
    "c0" + Path(l.prefix, l.stem) + "_" + Decimal(l.id)
  }

  function BlockText(function_: nat, l: Label): string
    requires l.BlockLabel?
  {
    "f" + Decimal(function_) + "_b" + Decimal(l.block)
  }

  // ---- reading back -------------------------------------------------------------------

  predicate Digits(s: string) {
    s != [] && forall i :: 0 <= i < |s| ==> '0' <= s[i] <= '9'
  }

  lemma {:induction false} DecimalDigits(n: nat)
    ensures Digits(Decimal(n))
  {
    if n >= 10 { DecimalDigits(n / 10); }
  }

  lemma DigitInjective(a: nat, b: nat)
    requires a < 10 && b < 10 && Digit(a) == Digit(b)
    ensures a == b
  {
  }

  lemma {:induction false} DecimalInjective(m: nat, n: nat)
    requires Decimal(m) == Decimal(n)
    ensures m == n
  {
    var s := Decimal(m);
    assert m < 10 <==> |s| == 1;
    assert n < 10 <==> |s| == 1;
    if m < 10 {
      DigitInjective(m, n);
    } else {
      assert s[|s| - 1] == Digit(m % 10) == Digit(n % 10);
      DigitInjective(m % 10, n % 10);
      assert Decimal(m / 10) == s[..|s| - 1] == Decimal(n / 10);
      DecimalInjective(m / 10, n / 10);
    }
  }

  /** Text before and after the first separator. */
  lemma FirstSplit(u: string, x: string, v: string, y: string)
    requires Digits(u) && Digits(v) && x != [] && y != [] && x[0] == '_' == y[0] && u + x == v + y
    ensures u == v && x == y
  {
    var s := u + x;
    assert s[|u|] == x[0] && s[|v|] == y[0];
    assert forall i :: 0 <= i < |u| ==> s[i] == u[i] != '_';
    assert forall i :: 0 <= i < |v| ==> s[i] == v[i] != '_';
    assert u == s[..|u|] && v == s[..|v|] && x == s[|u|..] && y == s[|v|..];
  }

  /** Text before and after the last separator. */
  lemma LastSplit(x: string, u: string, y: string, v: string)
    requires Digits(u) && Digits(v) && x + "_" + u == y + "_" + v
    ensures u == v && x == y
  {
    NotLater(x, u, y, v);
    NotLater(y, v, x, u);
    var s := x + "_" + u;
    assert x == s[..|x|] && u == s[|x| + 1..];
    assert y == (y + "_" + v)[..|y|] && v == (y + "_" + v)[|y| + 1..];
  }

  /** No underscore comes after the last one. */
  lemma NotLater(x: string, u: string, y: string, v: string)
    requires Digits(u) && x + "_" + u == y + "_" + v
    ensures |y| <= |x|
  {
    var s := x + "_" + u;
    assert (y + "_" + v)[|y|] == '_';
    forall i | |x| < i < |s| ensures s[i] != '_' { assert s[i] == u[i - |x| - 1]; }
  }

  lemma {:induction false} PathInjective(p: seq<nat>, a: string, q: seq<nat>, b: string)
    requires Worded(a) && Worded(b) && Path(p, a) == Path(q, b)
    ensures p == q && a == b
    decreases |p| + |q|
  {
    hide Decimal;
    var s := Path(p, a);
    if p == [] && q == [] {
      assert a == s[1..] == b;
    } else if p != [] && q != [] {
      DecimalDigits(p[0]);
      DecimalDigits(q[0]);
      assert Decimal(p[0]) + Path(p[1..], a) == s[1..] == Decimal(q[0]) + Path(q[1..], b);
      FirstSplit(Decimal(p[0]), Path(p[1..], a), Decimal(q[0]), Path(q[1..], b));
      DecimalInjective(p[0], q[0]);
      PathInjective(p[1..], a, q[1..], b);
      assert p == [p[0]] + p[1..] && q == [q[0]] + q[1..];
    } else if p == [] {
      PathsDiffer(a, q, b);
    } else {
      PathsDiffer(b, p, a);
    }
  }

  /** A purpose begins with a letter, a child number with a digit. */
  lemma PathsDiffer(a: string, q: seq<nat>, b: string)
    requires Worded(a) && q != []
    ensures Path([], a) != Path(q, b)
  {
    DecimalDigits(q[0]);
    assert Path([], a)[1] == a[0] && Path(q, b)[1] == Decimal(q[0])[0];
  }

  /** No two labels are written the same way. */
  lemma TextInjective(l: Label, m: Label)
    requires l.CodeLabel? && m.CodeLabel? && Worded(l.stem) && Worded(m.stem) && Text(l) == Text(m)
    ensures l == m
  {
    DecimalDigits(l.id);
    DecimalDigits(m.id);
    LastSplit("c0" + Path(l.prefix, l.stem), Decimal(l.id), "c0" + Path(m.prefix, m.stem), Decimal(m.id));
    DecimalInjective(l.id, m.id);
    assert Path(l.prefix, l.stem) == ("c0" + Path(l.prefix, l.stem))[2..] == ("c0" + Path(m.prefix, m.stem))[2..]
           == Path(m.prefix, m.stem);
    PathInjective(l.prefix, l.stem, m.prefix, m.stem);
  }

  /** The names that array patterns derive from their labels. */
  datatype Suffix = NoSuffix | PushSuffix | CheckReturnSuffix

  function SuffixText(s: Suffix): string {
    match s
    case NoSuffix => ""
    case PushSuffix => "_push"
    case CheckReturnSuffix => "_check_return"
  }

  lemma SuffixedInjective(l: Label, s: Suffix, m: Label, t: Suffix)
    requires l.CodeLabel? && m.CodeLabel? && Worded(l.stem) && Worded(m.stem)
    requires Text(l) + SuffixText(s) == Text(m) + SuffixText(t)
    ensures l == m && s == t
  {
    LastOf(l, s);
    LastOf(m, t);
    var u := Text(l) + SuffixText(s);
    assert Text(l) == u[..|u| - |SuffixText(s)|] && Text(m) == u[..|u| - |SuffixText(t)|];
    TextInjective(l, m);
  }

  lemma LastOf(l: Label, s: Suffix)
    requires l.CodeLabel?
    ensures var u := Text(l) + SuffixText(s);
            && u != [] && (s.NoSuffix? ==> '0' <= u[|u| - 1] <= '9')
            && (s.PushSuffix? ==> u[|u| - 1] == 'h') && (s.CheckReturnSuffix? ==> u[|u| - 1] == 'n')
  {
    DecimalDigits(l.id);
    var u := Text(l) + SuffixText(s);
    if s.NoSuffix? {
      assert u == Text(l);
      assert u[|u| - 1] == Decimal(l.id)[|Decimal(l.id)| - 1];
    } else {
      assert u[|u| - 1] == SuffixText(s)[|SuffixText(s)| - 1];
    }
  }

  /** Block labels of one function differ from each other, and from every code label. */
  lemma BlockTextInjective(f: nat, l: Label, m: Label)
    requires l.BlockLabel?
    ensures m.BlockLabel? && BlockText(f, l) == BlockText(f, m) ==> l == m
    ensures m.CodeLabel? ==> BlockText(f, l) != Text(m)
  {
    assert BlockText(f, l)[0] == 'f';
    if m.CodeLabel? {
      assert Text(m)[0] == 'c';
    } else if BlockText(f, l) == BlockText(f, m) {
      var n := |"f" + Decimal(f) + "_b"|;
      assert Decimal(l.block) == BlockText(f, l)[n..] == BlockText(f, m)[n..] == Decimal(m.block);
      DecimalInjective(l.block, m.block);
    }
  }

  /** Within one function no label string is emitted twice. */
  lemma FunctionTextsUnique(p: seq<nat>, body: seq<Stmt>, i: nat, j: nat)
    requires ListSingle(body)
    requires var ops := Linear(LowerList(p, [], body, Ids(0, 0, 0)).code);
             i < j < |ops| && ops[i].OpLabel? && ops[j].OpLabel?
    ensures var ops := Linear(LowerList(p, [], body, Ids(0, 0, 0)).code);
            ops[i].l.CodeLabel? && ops[j].l.CodeLabel? && Text(ops[i].l) != Text(ops[j].l)
  {
    var x := LowerList(p, [], body, Ids(0, 0, 0));
    var ops := Linear(x.code);
    ListFresh(p, [], body, Ids(0, 0, 0));
    CountCode(x.code);
    CountAt(ops, i);
    CountAt(ops, j);
    assert Owned(ops[i].l, p, Ids(0, 0, 0), x.ids) && Owned(ops[j].l, p, Ids(0, 0, 0), x.ids);
    FunctionLabelsUnique(p, body);
    if Text(ops[i].l) == Text(ops[j].l) { TextInjective(ops[i].l, ops[j].l); }
  }
}
