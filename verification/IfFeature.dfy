/**
 The if-feature expression parser: mutually recursive procedures that drive one operator stack and
 one operand stack, and the evaluation of the tree they leave behind.
 */
module IfFeature {
  import opened Common

  /** Identifier tokens are the ones the identifier pattern matches; the words and, or match it too. */
  datatype Token = Not | And | Or | Open | Close | Ident(name: string) | Other

  predicate IsOperator(t: Token) { t.And? || t.Or? }

  predicate IsIdentifier(t: Token) { t.Ident? || t.And? || t.Or? }

  function NameOf(t: Token): string
    requires IsIdentifier(t)
  {
    match t
    case Ident(n) => n
    case And => "and"
    case Or => "or"
  }

  type Env = string -> bool

  // ---------- The grammar of the comment ----------

  /** x = y ("and"/"or" y)* */
  ghost predicate InX(s: seq<Token>)
    decreases |s|, 1
  {
    InY(s) || exists k :: 0 <= k < |s| && IsOperator(s[k]) && InY(s[..k]) && InX(s[k + 1..])
  }

  /** y = "not" x / "(" x ")" / identifier */
  ghost predicate InY(s: seq<Token>)
    decreases |s|, 0
  {
    || (|s| >= 1 && s[0] == Not && InX(s[1..]))
    || (|s| >= 2 && s[0] == Open && s[|s| - 1] == Close && InX(s[1..|s| - 1]))
    || (|s| == 1 && IsIdentifier(s[0]))
  }

  // ---------- The meaning: not binds tighter than and, and tighter than or ----------

  /** A value and the position after the tokens it was read from. */
  datatype Reading = Reading(value: bool, end: nat)

  /** not-level: "not" not-level / "(" or-level ")" / identifier */
  function RefNot(ts: seq<Token>, p: nat, env: Env): (r: Option<Reading>)
    ensures r.Some? ==> p < r.value.end <= |ts|
    decreases |ts| - p, 0
  {
    if p >= |ts| then None
    else if ts[p] == Not then
      match RefNot(ts, p + 1, env)
      case None => None
      case Some(r) => Some(Reading(!r.value, r.end))
    else if ts[p] == Open then
      match RefOr(ts, p + 1, env)
      case None => None
      case Some(r) => if r.end < |ts| && ts[r.end] == Close then Some(Reading(r.value, r.end + 1)) else None
    else if IsIdentifier(ts[p]) then Some(Reading(env(NameOf(ts[p])), p + 1))
    else None
  }

  /** and-level: not-level ("and" not-level)* */
  function RefAnd(ts: seq<Token>, p: nat, env: Env): (r: Option<Reading>)
    ensures r.Some? ==> p < r.value.end <= |ts|
    decreases |ts| - p, 1
  {
    match RefNot(ts, p, env)
    case None => None
    case Some(l) =>
      if l.end < |ts| && ts[l.end] == And then
        match RefAnd(ts, l.end + 1, env)
        case None => None
        case Some(r) => Some(Reading(l.value && r.value, r.end))
      else Some(l)
  }

  /** or-level: and-level ("or" and-level)* */
  function RefOr(ts: seq<Token>, p: nat, env: Env): (r: Option<Reading>)
    ensures r.Some? ==> p < r.value.end <= |ts|
    decreases |ts| - p, 2
  {
    match RefAnd(ts, p, env)
    case None => None
    case Some(l) =>
      if l.end < |ts| && ts[l.end] == Or then
        match RefOr(ts, l.end + 1, env)
        case None => None
        case Some(r) => Some(Reading(l.value || r.value, r.end))
      else Some(l)
  }

  // ---------- One pass over a parenthesis level, as the shared stack makes it ----------

  /** Where the level whose next operand starts at p ends; None when it is malformed. */
  function EndX(ts: seq<Token>, p: nat): (e: Option<nat>)
    ensures e.Some? ==> p < e.value <= |ts| && !(e.value < |ts| && IsOperator(ts[e.value]))
    decreases |ts| - p, 0
  {
    if p >= |ts| then None
    else if ts[p] == Not then EndX(ts, p + 1)
    else if ts[p] == Open then
      match EndX(ts, p + 1)
      case None => None
      case Some(q) => if q < |ts| && ts[q] == Close then EndOp(ts, q + 1) else None
    else if IsIdentifier(ts[p]) then EndOp(ts, p + 1)
    else None
  }

  /** The same from a position where an operator may follow. */
  function EndOp(ts: seq<Token>, p: nat): (e: Option<nat>)
    requires p <= |ts|
    ensures e.Some? ==> p <= e.value <= |ts| && !(e.value < |ts| && IsOperator(ts[e.value]))
    decreases |ts| - p, 1
  {
    if p < |ts| && IsOperator(ts[p]) then EndX(ts, p + 1) else Some(p)
  }

  predicate Xor(a: bool, b: bool) { a != b }

  /** The level's value: o is pending on or, a on and, n tells an odd number of nots. */
  function Val(ts: seq<Token>, p: nat, env: Env, o: bool, a: bool, n: bool): bool
    requires EndX(ts, p).Some?
    decreases |ts| - p, 0
  {
    if ts[p] == Not then Val(ts, p + 1, env, o, a, !n)
    else if ts[p] == Open then
      ValOp(ts, EndX(ts, p + 1).value + 1, env, o, a, Xor(Val(ts, p + 1, env, false, true, false), n))
    else ValOp(ts, p + 1, env, o, a, Xor(env(NameOf(ts[p])), n))
  }

  function ValOp(ts: seq<Token>, p: nat, env: Env, o: bool, a: bool, v: bool): bool
    requires p <= |ts| && EndOp(ts, p).Some?
    decreases |ts| - p, 1
  {
    if p < |ts| && ts[p] == And then Val(ts, p + 1, env, o, a && v, false)
    else if p < |ts| && ts[p] == Or then Val(ts, p + 1, env, o || (a && v), true, false)
    else o || (a && v)
  }

  // ---------- The pass reads the grammar ----------

  lemma Inner<T>(ts: seq<T>, p: nat, q: nat, i: nat, j: nat)
    requires p <= q <= |ts| && i <= j <= q - p
    ensures ts[p..q][i..j] == ts[p + i..p + j]
  {
    forall k | 0 <= k < j - i
      ensures ts[p..q][i..j][k] == ts[p + i..p + j][k]
    {
      assert ts[p..q][i + k] == ts[p + (i + k)];
    }
  }

  lemma EndOpStep(ts: seq<Token>, p: nat)
    requires p < |ts| && IsOperator(ts[p])
    ensures EndOp(ts, p) == EndX(ts, p + 1)
  {
  }

  /** x is y, or y, an operator and x. */
  lemma UnfoldX(s: seq<Token>) returns (k: nat)
    requires InX(s)
    ensures k <= |s| && InY(s[..k]) && (k < |s| ==> IsOperator(s[k]) && InX(s[k + 1..]))
  {
    if InY(s) {
      k := |s|;
      assert s[..k] == s;
    } else {
      k :| 0 <= k < |s| && IsOperator(s[k]) && InY(s[..k]) && InX(s[k + 1..]);
    }
  }

  lemma {:induction false} XSkips(ts: seq<Token>, p: nat, q: nat)
    requires p <= q <= |ts| && InX(ts[p..q])
    ensures p < |ts| && EndX(ts, p) == EndOp(ts, q)
    decreases q - p, 1
  {
    hide InX, InY, EndX, EndOp;
    var s := ts[p..q];
    var k := UnfoldX(s);
    Inner(ts, p, q, 0, k);
    YSkips(ts, p, p + k);
    if k < |s| {
      Inner(ts, p, q, k + 1, |s|);
      assert s[k + 1..|s|] == s[k + 1..];
      EndOpStep(ts, p + k);
      XSkips(ts, p + k + 1, q);
    }
  }

  lemma {:induction false} YSkips(ts: seq<Token>, p: nat, q: nat)
    requires p <= q <= |ts| && InY(ts[p..q])
    ensures p < |ts| && EndX(ts, p) == EndOp(ts, q)
    decreases q - p, 0
  {
    hide InX;
    var s := ts[p..q];
    if |s| >= 1 && s[0] == Not && InX(s[1..]) {
      Inner(ts, p, q, 1, |s|);
      assert s[1..] == s[1..|s|];
      XSkips(ts, p + 1, q);
    } else if |s| >= 2 && s[0] == Open && s[|s| - 1] == Close && InX(s[1..|s| - 1]) {
      Inner(ts, p, q, 1, |s| - 1);
      XSkips(ts, p + 1, q - 1);
    }
  }

  /** An operand read from p up to m, with the level going on at m, is in the language. */
  lemma GlueX(ts: seq<Token>, p: nat, m: nat, q: nat)
    requires p < m <= q <= |ts| && InY(ts[p..m])
    requires m < q ==> IsOperator(ts[m]) && InX(ts[m + 1..q])
    ensures InX(ts[p..q])
  {
    hide InY;
    var s := ts[p..q];
    Inner(ts, p, q, 0, m - p);
    if m < q {
      Inner(ts, p, q, m + 1 - p, q - p);
      assert s[m + 1 - p..] == s[m + 1 - p..q - p];
      assert IsOperator(s[m - p]) && InY(s[..m - p]);
    }
  }

  lemma NotInY(ts: seq<Token>, p: nat, q: nat)
    requires p < q <= |ts| && ts[p] == Not && InX(ts[p + 1..q])
    ensures InY(ts[p..q])
  {
    hide InX;
    assert ts[p..q][1..] == ts[p + 1..q];
  }

  lemma ParensInY(ts: seq<Token>, p: nat, m: nat)
    requires p < m < |ts| && ts[p] == Open && ts[m] == Close && InX(ts[p + 1..m])
    ensures InY(ts[p..m + 1])
  {
    hide InX;
    var s := ts[p..m + 1];
    Inner(ts, p, m + 1, 1, m - p);
    assert s[1..|s| - 1] == ts[p + 1..m];
  }

  lemma NameInY(ts: seq<Token>, p: nat)
    requires p < |ts| && IsIdentifier(ts[p])
    ensures InY(ts[p..p + 1])
  {
  }

  lemma {:induction false} EndInX(ts: seq<Token>, p: nat)
    requires EndX(ts, p).Some?
    ensures InX(ts[p..EndX(ts, p).value])
    decreases |ts| - p, 1
  {
    hide InX, InY, EndOp;
    var q := EndX(ts, p).value;
    if ts[p] == Not {
      EndInX(ts, p + 1);
      NotInY(ts, p, q);
      GlueX(ts, p, q, q);
    } else if ts[p] == Open {
      var m := EndX(ts, p + 1).value;
      EndInX(ts, p + 1);
      ParensInY(ts, p, m);
      EndOpInX(ts, m + 1);
      GlueX(ts, p, m + 1, q);
    } else {
      NameInY(ts, p);
      EndOpInX(ts, p + 1);
      GlueX(ts, p, p + 1, q);
    }
  }

  /** What follows an operand: nothing, or an operator and a level. */
  lemma {:induction false} EndOpInX(ts: seq<Token>, m: nat)
    requires m <= |ts| && EndOp(ts, m).Some?
    ensures var q := EndOp(ts, m).value; m <= q <= |ts| && (m < q ==> IsOperator(ts[m]) && InX(ts[m + 1..q]))
    decreases |ts| - m, 0
  {
    hide InX, EndX;
    if m < |ts| && IsOperator(ts[m]) {
      EndInX(ts, m + 1);
    }
  }

  /** The whole token list is one level exactly when it is in the language of x. */
  lemma AcceptsLanguage(ts: seq<Token>)
    ensures EndX(ts, 0) == Some(|ts|) <==> InX(ts)
  {
    assert ts[0..|ts|] == ts;
    if InX(ts) {
      XSkips(ts, 0, |ts|);
    }
    if EndX(ts, 0) == Some(|ts|) {
      EndInX(ts, 0);
    }
  }

  // ---------- The pass agrees with the layered reading ----------

  lemma {:induction false} RefNotEnd(ts: seq<Token>, p: nat, env: Env)
    ensures RefNot(ts, p, env).Some? ==> EndX(ts, p) == EndOp(ts, RefNot(ts, p, env).value.end)
    ensures EndX(ts, p).Some? ==> RefNot(ts, p, env).Some?
    decreases |ts| - p, 0
  {
    if p < |ts| {
      if ts[p] == Not {
        RefNotEnd(ts, p + 1, env);
      } else if ts[p] == Open {
        RefOrEnd(ts, p + 1, env);
      }
    }
  }

  lemma {:induction false} RefAndEnd(ts: seq<Token>, p: nat, env: Env)
    ensures var r := RefAnd(ts, p, env);
            && (EndX(ts, p).Some? ==> r.Some?)
            && (r.Some? ==> EndX(ts, p) == EndOp(ts, r.value.end))
            && (r.Some? ==> !(r.value.end < |ts| && ts[r.value.end] == And))
    decreases |ts| - p, 1
  {
    RefNotEnd(ts, p, env);
    var l := RefNot(ts, p, env);
    if l.Some? && l.value.end < |ts| && ts[l.value.end] == And {
      RefAndEnd(ts, l.value.end + 1, env);
    }
  }

  /** The layered reading accepts what the pass accepts, up to the same place. */
  lemma {:induction false} RefOrEnd(ts: seq<Token>, p: nat, env: Env)
    ensures match RefOr(ts, p, env)
            case None => EndX(ts, p) == None
            case Some(r) => EndX(ts, p) == Some(r.end)
    decreases |ts| - p, 2
  {
    RefAndEnd(ts, p, env);
    var l := RefAnd(ts, p, env);
    if l.Some? && l.value.end < |ts| && ts[l.value.end] == Or {
      RefOrEnd(ts, l.value.end + 1, env);
    }
  }

  lemma {:induction false} RefNotVal(ts: seq<Token>, p: nat, env: Env, o: bool, a: bool, n: bool)
    requires EndX(ts, p).Some?
    ensures RefNot(ts, p, env).Some? && EndOp(ts, RefNot(ts, p, env).value.end).Some?
    ensures Val(ts, p, env, o, a, n) ==
              ValOp(ts, RefNot(ts, p, env).value.end, env, o, a, Xor(RefNot(ts, p, env).value.value, n))
    decreases |ts| - p, 0
  {
    RefNotEnd(ts, p, env);
    if ts[p] == Not {
      RefNotVal(ts, p + 1, env, o, a, !n);
    } else if ts[p] == Open {
      RefOrVal(ts, p + 1, env, false);
      RefOrEnd(ts, p + 1, env);
    }
  }

  lemma {:induction false} RefAndVal(ts: seq<Token>, p: nat, env: Env, o: bool, a: bool)
    requires EndX(ts, p).Some?
    ensures RefAnd(ts, p, env).Some? && EndOp(ts, RefAnd(ts, p, env).value.end).Some?
    ensures Val(ts, p, env, o, a, false) == ValOp(ts, RefAnd(ts, p, env).value.end, env, o, a, RefAnd(ts, p, env).value.value)
    decreases |ts| - p, 1
  {
    hide RefNot, EndX, Val;
    RefAndEnd(ts, p, env);
    RefNotVal(ts, p, env, o, a, false);
    var l := RefNot(ts, p, env).value;
    if l.end < |ts| && ts[l.end] == And {
      RefAndVal(ts, l.end + 1, env, o, a && l.value);
      ValOpAnd(ts, RefAnd(ts, l.end + 1, env).value.end, env, o, a, l.value, RefAnd(ts, l.end + 1, env).value.value);
    }
  }

  /** Where no "and" follows, pending conjuncts may be merged into the operand. */
  lemma ValOpAnd(ts: seq<Token>, p: nat, env: Env, o: bool, a: bool, v: bool, w: bool)
    requires p <= |ts| && EndOp(ts, p).Some? && !(p < |ts| && ts[p] == And)
    ensures ValOp(ts, p, env, o, a && v, w) == ValOp(ts, p, env, o, a, v && w)
  {
    assert ((a && v) && w) == (a && (v && w));
  }

  lemma {:induction false} RefOrVal(ts: seq<Token>, p: nat, env: Env, o: bool)
    requires EndX(ts, p).Some?
    ensures RefOr(ts, p, env).Some?
    ensures Val(ts, p, env, o, true, false) == (o || RefOr(ts, p, env).value.value)
    decreases |ts| - p, 2
  {
    RefOrEnd(ts, p, env);
    RefAndVal(ts, p, env, o, true);
    RefAndEnd(ts, p, env);
    var l := RefAnd(ts, p, env).value;
    if l.end < |ts| && ts[l.end] == Or {
      RefOrVal(ts, l.end + 1, env, o || l.value);
    }
  }

  // ---------- The two stacks ----------

  /** Sentinel is the None that opens a parenthesis level. */
  datatype Op = Sentinel | OpNot | OpAnd | OpOr

  function Precedence(op: Op): int
  {
    match op
    case OpNot => 3
    case OpAnd => 2
    case OpOr => 1
    case Sentinel => 0
  }

  datatype Tree = Leaf(name: string) | NotTree(arg: Tree) | Bin(op: Op, first: Tree, second: Tree)

  /** The evaluation of a tree for a choice of features. */
  function Eval(t: Tree, env: Env): bool
  {
    match t
    case Leaf(n) => env(n)
    case NotTree(u) => !Eval(u, env)
    case Bin(op, l, r) => if op == OpAnd then Eval(l, env) && Eval(r, env) else Eval(l, env) || Eval(r, env)
  }

  function OpOf(t: Token): Op
    requires IsOperator(t)
  {
    if t == And then OpAnd else OpOr
  }

  function Rep(op: Op, n: nat): seq<Op> { seq(n, i => op) }

  /** What is pending on one level: or-operands, and-operands and nots, lowest precedence at the bottom. */
  datatype Context = Context(ors: seq<Tree>, ands: seq<Tree>, nots: nat)
  {
    function Ops(): seq<Op> { Rep(OpOr, |ors|) + Rep(OpAnd, |ands|) + Rep(OpNot, nots) }

    function Operands(): seq<Tree> { ors + ands }

    /** The value once the operand of value v completes everything pending. */
    ghost predicate Value(v: bool, env: Env) { O(env) || (A(env) && Xor(v, N())) }

    ghost predicate O(env: Env) { exists i :: 0 <= i < |ors| && Eval(ors[i], env) }

    ghost predicate A(env: Env) { forall i :: 0 <= i < |ands| ==> Eval(ands[i], env) }

    predicate N() { nots % 2 == 1 }

    /** The context and the operand after the topmost operator has been applied to operand t. */
    function Popped(t: Tree): (Context, Tree)
      requires Ops() != []
    {
      if nots > 0 then (Context(ors, ands, nots - 1), NotTree(t))
      else if ands != [] then (Context(ors, ands[..|ands| - 1], 0), Bin(OpAnd, t, ands[|ands| - 1]))
      else if ors != [] then (Context(ors[..|ors| - 1], ands, 0), Bin(OpOr, t, ors[|ors| - 1]))
      else (this, t)
    }

    lemma PoppedOps(t: Tree)
      requires Ops() != []
      ensures Popped(t).0.Ops() == Ops()[..|Ops()| - 1]
      ensures Ops()[|Ops()| - 1] == if nots > 0 then OpNot else if ands != [] then OpAnd else OpOr
      ensures nots == 0 && ands == [] ==> ors != []
    {
    }

    /** The operand with the pending nots, and the current and-group with that operand. */
    predicate Operand(t: Tree, env: Env) { Xor(Eval(t, env), N()) }

    ghost predicate Group(t: Tree, env: Env) { A(env) && Operand(t, env) }

    lemma SameOrs(c: Context, env: Env)
      requires c.ors == ors
      ensures c.O(env) == O(env)
    {
    }

    lemma SameAnds(c: Context, env: Env)
      requires c.ands == ands
      ensures c.A(env) == A(env)
    {
    }

    lemma OneNotLess()
      requires nots > 0
      ensures Context(ors, ands, nots - 1).N() == !N()
    {
    }

    lemma NoNots()
      requires nots == 0
      ensures forall c: Context :: c.nots == 0 ==> !c.N()
    {
    }

    lemma NoAnds(env: Env)
      requires ands == []
      ensures A(env)
    {
    }

    lemma LastAnd(c: Context, t: Tree, env: Env)
      requires ands == c.ands + [t]
      ensures A(env) <==> c.A(env) && Eval(t, env)
    {
      hide Eval;
      assert ands[|ands| - 1] == t;
      assert forall i :: 0 <= i < |c.ands| ==> ands[i] == c.ands[i];
    }

    lemma LastOr(c: Context, t: Tree, env: Env)
      requires ors == c.ors + [t]
      ensures O(env) <==> c.O(env) || Eval(t, env)
    {
      hide Eval;
      assert ors[|ors| - 1] == t;
      assert forall i :: 0 <= i < |c.ors| ==> ors[i] == c.ors[i];
    }

    /** Applying a not keeps the operand's value, applying an and keeps the group's, applying an or the level's. */
    lemma PoppedValue(t: Tree, env: Env)
      requires Ops() != []
      ensures var (c, u) := Popped(t);
              && (O(env) || Group(t, env)) == (c.O(env) || c.Group(u, env))
              && (nots > 0 ==> c.Operand(u, env) == Operand(t, env))
              && (nots > 0 || ands != [] ==> c.Group(u, env) == Group(t, env))
    {
      hide Context.O, Context.A, Context.Ops, Context.Operands, Context.N;
      var (c, u) := Popped(t);
      if nots > 0 {
        OneNotLess();
        SameOrs(c, env);
        SameAnds(c, env);
      } else if ands != [] {
        NoNots();
        LastAnd(c, ands[|ands| - 1], env);
        SameOrs(c, env);
      } else if ors != [] {
        LastOr(c, ors[|ors| - 1], env);
        SameAnds(c, env);
        NoAnds(env);
        NoNots();
      }
    }
  }

  lemma NothingPending()
    ensures var c := Context([], [], 0);
            c.Ops() == [] && c.Operands() == [] && !c.N() && forall env :: !c.O(env) && c.A(env)
  {
    var c := Context([], [], 0);
    forall env
      ensures !c.O(env) && c.A(env)
    {
    }
  }

  class Parser {
    const tokens: seq<Token>
    var pos: nat
    var operators: seq<Op>
    var operands: seq<Tree>

    constructor (tokens: seq<Token>)
      ensures this.tokens == tokens && pos == 0 && operators == [Sentinel] && operands == []
    {
      this.tokens := tokens;
      pos, operators, operands := 0, [Sentinel], [];
    }

    /** The level opened above base waits for an operand, with ctx pending. */
    ghost predicate Waiting(base: seq<Op>, obase: seq<Tree>, ctx: Context)
      reads this
    {
      pos <= |tokens| && operators == base + [Sentinel] + ctx.Ops() && operands == obase + ctx.Operands()
    }

    /** The same with the operand t on top. */
    ghost predicate Holding(base: seq<Op>, obase: seq<Tree>, ctx: Context, t: Tree)
      reads this
    {
      pos <= |tokens| && operators == base + [Sentinel] + ctx.Ops() && operands == obase + ctx.Operands() + [t]
    }

    /** Take the top operator and its operands off the stacks, which hold enough of them. */
    method PopOperator()
      requires operators != [] && operators[|operators| - 1] != Sentinel
      requires |operands| >= if operators[|operators| - 1] == OpNot then 1 else 2
      modifies this`operators, this`operands
      ensures operators == old(operators)[..|old(operators)| - 1]
      ensures var op, n := old(operators)[|old(operators)| - 1], |old(operands)|;
              operands == if op == OpNot then old(operands)[..n - 1] + [NotTree(old(operands)[n - 1])]
                          else old(operands)[..n - 2] + [Bin(op, old(operands)[n - 1], old(operands)[n - 2])]
    {
      var op := operators[|operators| - 1];
      operators := operators[..|operators| - 1];
      if op == OpNot {
        var u := operands[|operands| - 1];
        operands := operands[..|operands| - 1];
        operands := operands + [NotTree(u)];
      } else {
        var u := operands[|operands| - 1];
        operands := operands[..|operands| - 1];
        var v := operands[|operands| - 1];
        operands := operands[..|operands| - 1];
        operands := operands + [Bin(op, u, v)];
      }
    }

    /** One pop, seen on the level's context. */
    method PopLevel(ghost base: seq<Op>, ghost obase: seq<Tree>, ghost ctx: Context, ghost t: Tree)
      requires Holding(base, obase, ctx, t) && ctx.Ops() != []
      modifies this`operators, this`operands
      ensures Holding(base, obase, ctx.Popped(t).0, ctx.Popped(t).1)
    {
      ctx.PoppedOps(t);
      TopOf(base, ctx);
      PopOperator();
    }

    lemma TopOf(base: seq<Op>, ctx: Context)
      ensures var s := base + [Sentinel] + ctx.Ops();
              s[|s| - 1] == if ctx.nots > 0 then OpNot else if ctx.ands != [] then OpAnd
                            else if ctx.ors != [] then OpOr else Sentinel
      ensures ctx.Ops() == [] <==> ctx.nots == 0 && ctx.ands == [] && ctx.ors == []
    {
      if ctx.Ops() != [] {
        ctx.PoppedOps(Leaf(""));
      }
    }

    /** Applying an operator that binds tighter than op leaves the level's or operands and the value that op needs. */
    lemma PopsTighter(op: Op, c: Context, t: Tree)
      requires (op == OpAnd && c.nots > 0) || (op == OpOr && (c.nots > 0 || c.ands != []))
      ensures c.Ops() != []
      ensures var (d, u) := c.Popped(t);
              && d.ors == c.ors && (op == OpAnd ==> d.ands == c.ands) && d.nots + |d.ands| < c.nots + |c.ands|
              && forall env :: if op == OpAnd then d.Operand(u, env) == c.Operand(t, env)
                               else d.Group(u, env) == c.Group(t, env)
    {
      hide Context.O, Context.Operand, Context.Group, Eval;
      assert |c.Ops()| >= c.nots + |c.ands|;
      forall env
        ensures var (d, u) := c.Popped(t);
                if op == OpAnd then d.Operand(u, env) == c.Operand(t, env) else d.Group(u, env) == c.Group(t, env)
      {
        c.PoppedValue(t, env);
      }
    }

    /** With nothing tighter pending, the operand is what op takes. */
    lemma NothingTighter(op: Op, c: Context, t: Tree)
      requires c.nots == 0 && (op == OpOr ==> c.ands == [])
      ensures forall env :: if op == OpOr then Eval(t, env) == c.Group(t, env) else Eval(t, env) == c.Operand(t, env)
    {
      hide Context.A, Eval;
      forall env
        ensures op == OpOr ==> c.A(env)
      {
        if op == OpOr {
          c.NoAnds(env);
        }
      }
    }

    /** Push a binary operator: first everything that binds tighter is applied to the operand on top. */
    method PushOperator(op: Op, ghost base: seq<Op>, ghost obase: seq<Tree>, ghost c0: Context, ghost t0: Tree)
      returns (ghost c: Context, ghost t: Tree)
      requires Holding(base, obase, c0, t0) && (op == OpAnd || op == OpOr)
      modifies this`operators, this`operands
      ensures pos <= |tokens| && operators == base + [Sentinel] + c.Ops() + [op] && operands == obase + c.Operands() + [t]
      ensures c.ors == c0.ors && c.nots == 0 && (if op == OpAnd then c.ands == c0.ands else c.ands == [])
      ensures forall env :: if op == OpAnd then Eval(t, env) == c0.Operand(t0, env) else Eval(t, env) == c0.Group(t0, env)
    {
      hide Context.O, Context.A, Context.Ops, Context.Popped, Context.Operand, Context.Group, Eval;
      c, t := c0, t0;
      TopOf(base, c);
      while Precedence(operators[|operators| - 1]) > Precedence(op)
        invariant Holding(base, obase, c, t) && operators != []
        invariant operators[|operators| - 1] == if c.nots > 0 then OpNot else if c.ands != [] then OpAnd
                                                else if c.ors != [] then OpOr else Sentinel
        invariant c.ors == c0.ors && (op == OpAnd ==> c.ands == c0.ands)
        invariant forall env :: if op == OpAnd then c.Operand(t, env) == c0.Operand(t0, env)
                                else c.Group(t, env) == c0.Group(t0, env)
        decreases c.nots + |c.ands|
      {
        PopsTighter(op, c, t);
        PopLevel(base, obase, c, t);
        c, t := c.Popped(t).0, c.Popped(t).1;
        TopOf(base, c);
      }
      NothingTighter(op, c, t);
      operators := operators + [op];
    }

    /** The context after a binary operator has been pushed over operand t. */
    ghost function Pushed(op: Op, c: Context, t: Tree): Context
    {
      if op == OpAnd then Context(c.ors, c.ands + [t], 0) else Context(c.ors + [t], [], 0)
    }

    lemma PushedIs(op: Op, c: Context, t: Tree)
      requires (op == OpAnd || op == OpOr) && c.nots == 0 && (op == OpOr ==> c.ands == [])
      ensures Pushed(op, c, t).Ops() == c.Ops() + [op]
      ensures Pushed(op, c, t).Operands() == c.Operands() + [t]
    {
    }

    lemma PushedValue(op: Op, c0: Context, t0: Tree, c: Context, t: Tree, env: Env)
      requires (op == OpAnd || op == OpOr) && c.ors == c0.ors && (if op == OpAnd then c.ands == c0.ands else c.ands == [])
      requires if op == OpAnd then Eval(t, env) == c0.Operand(t0, env) else Eval(t, env) == c0.Group(t0, env)
      ensures var d := Pushed(op, c, t);
              && !d.N()
              && d.O(env) == (if op == OpAnd then c0.O(env) else c0.O(env) || c0.Group(t0, env))
              && d.A(env) == (if op == OpAnd then c0.A(env) && c0.Operand(t0, env) else true)
    {
      var d := Pushed(op, c, t);
      if op == OpAnd {
        assert d.ands == c0.ands + [t] && d.ands[|c0.ands|] == t;
        assert forall i :: 0 <= i < |c0.ands| ==> d.ands[i] == c0.ands[i];
        assert d.A(env) <==> c0.A(env) && Eval(t, env);
        assert d.O(env) == c0.O(env);
      } else {
        assert d.ors == c0.ors + [t] && d.ors[|c0.ors|] == t;
        assert forall i :: 0 <= i < |c0.ors| ==> d.ors[i] == c0.ors[i];
        assert d.O(env) <==> c0.O(env) || Eval(t, env);
      }
    }

    lemma PushedValues(op: Op, c0: Context, t0: Tree, c: Context, t: Tree)
      requires (op == OpAnd || op == OpOr) && c.ors == c0.ors && (if op == OpAnd then c.ands == c0.ands else c.ands == [])
      requires forall env :: if op == OpAnd then Eval(t, env) == c0.Operand(t0, env) else Eval(t, env) == c0.Group(t0, env)
      ensures var e := Pushed(op, c, t);
              && !e.N()
              && (forall env :: e.O(env) == if op == OpAnd then c0.O(env) else c0.O(env) || c0.Group(t0, env))
              && (forall env :: e.A(env) == if op == OpAnd then c0.A(env) && c0.Operand(t0, env) else true)
    {
      hide Eval, Context.O, Context.A, Context.Group, Context.Operand;
      forall env
        ensures var e := Pushed(op, c, t);
                && !e.N()
                && e.O(env) == (if op == OpAnd then c0.O(env) else c0.O(env) || c0.Group(t0, env))
                && e.A(env) == (if op == OpAnd then c0.A(env) && c0.Operand(t0, env) else true)
      {
        PushedValue(op, c0, t0, c, t, env);
      }
    }

    /** Apply everything pending on the level. */
    method Unwind(ghost base: seq<Op>, ghost obase: seq<Tree>, ghost c0: Context, ghost t0: Tree) returns (ghost t: Tree)
      requires Holding(base, obase, c0, t0)
      modifies this`operators, this`operands
      ensures operators == base + [Sentinel] && operands == obase + [t]
      ensures forall env :: Eval(t, env) == (c0.O(env) || c0.Group(t0, env))
    {
      hide Context.O, Context.Group, Eval;
      t := t0;
      ghost var c := c0;
      TopOf(base, c);
      while operators[|operators| - 1] != Sentinel
        invariant Holding(base, obase, c, t) && operators != []
        invariant operators[|operators| - 1] == Sentinel <==> c.Ops() == []
        invariant c.Ops() == [] <==> c.nots == 0 && c.ands == [] && c.ors == []
        invariant forall env :: (c.O(env) || c.Group(t, env)) == (c0.O(env) || c0.Group(t0, env))
        decreases c.nots + |c.ands| + |c.ors|
      {
        PopsAny(c, t);
        PopLevel(base, obase, c, t);
        c, t := c.Popped(t).0, c.Popped(t).1;
        TopOf(base, c);
      }
      NothingLeft(c, t);
    }

    lemma PopsAny(c: Context, t: Tree)
      requires c.Ops() != []
      ensures forall env :: var (d, u) := c.Popped(t); (d.O(env) || d.Group(u, env)) == (c.O(env) || c.Group(t, env))
    {
      hide Context.O, Context.Group, Context.Popped, Context.Ops;
      forall env
        ensures var (d, u) := c.Popped(t); (d.O(env) || d.Group(u, env)) == (c.O(env) || c.Group(t, env))
      {
        c.PoppedValue(t, env);
      }
    }

    lemma NothingLeft(c: Context, t: Tree)
      requires c.nots == 0 && c.ands == [] && c.ors == []
      ensures c.Operands() == [] && forall env :: Eval(t, env) == (c.O(env) || c.Group(t, env))
    {
      hide Eval;
    }

    /** The level read from p on is finished: its value is on top, with nothing pending. */
    ghost predicate Finished(base: seq<Op>, obase: seq<Tree>, p: nat, ctx: Context, t: Tree)
      reads this
    {
      && EndX(tokens, p) == Some(pos) && operators == base + [Sentinel] && operands == obase + [t]
      && forall env :: Eval(t, env) == Val(tokens, p, env, ctx.O(env), ctx.A(env), ctx.N())
    }

    /** An operand: a name or a parenthesis lands on the stack; a "not" lets X finish the whole level. */
    method Y(ghost base: seq<Op>, ghost obase: seq<Tree>, ghost ctx: Context) returns (ok: bool, ghost t: Tree)
      requires Waiting(base, obase, ctx)
      modifies this`pos, this`operators, this`operands
      ensures old(pos) <= pos <= |tokens|
      ensures !ok ==> EndX(tokens, old(pos)) == None
      ensures ok ==> old(pos) < pos && if tokens[old(pos)] == Not then Finished(base, obase, old(pos), ctx, t) else
                Holding(base, obase, ctx, t) && EndX(tokens, old(pos)) == EndOp(tokens, pos) &&
                forall env :: EndX(tokens, old(pos)).Some? ==>
                  Val(tokens, old(pos), env, ctx.O(env), ctx.A(env), ctx.N()) ==
                  ValOp(tokens, pos, env, ctx.O(env), ctx.A(env), ctx.Operand(t, env))
      decreases |tokens| - pos, 0
    {
      hide Context.O, Context.A;
      t := Leaf("");
      if pos >= |tokens| {
        return false, t;
      }
      var tok := tokens[pos];
      ghost var p := pos;
      pos := pos + 1;
      if tok == Not {
        operators := operators + [OpNot];
        ghost var c := Context(ctx.ors, ctx.ands, ctx.nots + 1);
        assert c.Ops() == ctx.Ops() + [OpNot];
        ok, t := X(base, obase, c);
        forall env
          ensures c.O(env) == ctx.O(env) && c.A(env) == ctx.A(env) && c.N() == !ctx.N()
        {
          ctx.SameOrs(c, env);
          ctx.SameAnds(c, env);
        }
      } else if tok == Open {
        operators := operators + [Sentinel];
        ghost var none := Context([], [], 0);
        NothingPending();
        ok, t := X(base + [Sentinel] + ctx.Ops(), obase + ctx.Operands(), none);
        if !ok {
          return;
        }
        if pos >= |tokens| || tokens[pos] != Close {
          return false, t;
        }
        pos := pos + 1;
        operators := operators[..|operators| - 1];
      } else if IsIdentifier(tok) {
        t := Leaf(NameOf(tok));
        operands := operands + [Leaf(NameOf(tok))];
        ok := true;
      } else {
        ok := false;
      }
    }

    /** A whole level, from its next operand to the token that ends it. */
    method X(ghost base: seq<Op>, ghost obase: seq<Tree>, ghost ctx: Context) returns (ok: bool, ghost t: Tree)
      requires Waiting(base, obase, ctx)
      modifies this`pos, this`operators, this`operands
      ensures old(pos) <= pos <= |tokens|
      ensures ok <==> EndX(tokens, old(pos)).Some?
      ensures ok ==> Finished(base, obase, old(pos), ctx, t)
      decreases |tokens| - pos, 1
    {
      hide Eval, Val, EndX, Context.O, Context.A, Context.Ops, Context.Operands;
      ghost var p := pos;
      ok, t := Y(base, obase, ctx);
      if !ok {
        return;
      }
      ghost var c := ctx;
      ghost var finished := tokens[p] == Not;
      while pos < |tokens| && IsOperator(tokens[pos])
        invariant p < pos <= |tokens|
        invariant finished ==> Finished(base, obase, p, ctx, t)
        invariant !finished ==> Holding(base, obase, c, t) && EndX(tokens, p) == EndOp(tokens, pos)
        invariant !finished ==> forall env :: EndX(tokens, p).Some? ==>
                    Val(tokens, p, env, ctx.O(env), ctx.A(env), ctx.N()) ==
                    ValOp(tokens, pos, env, c.O(env), c.A(env), c.Operand(t, env))
        decreases |tokens| - pos
      {
        ghost var q := pos;
        var op := OpOf(tokens[pos]);
        pos := pos + 1;
        ghost var d, u := PushOperator(op, base, obase, c, t);
        PushedIs(op, d, u);
        PushedValues(op, c, t, d, u);
        c := Pushed(op, d, u);
        ok, t := Y(base, obase, c);
        if !ok {
          return;
        }
        finished := tokens[q + 1] == Not;
      }
      NothingPending();
      t := Unwind(base, obase, if finished then Context([], [], 0) else c, t);
    }

    /** The whole expression: a tree, or None where the source returns None. */
    method Parse() returns (r: Option<Tree>)
      requires pos == 0 && operators == [Sentinel] && operands == []
      modifies this
      ensures r.Some? <==> InX(tokens)
      ensures r.Some? ==> forall env :: RefOr(tokens, 0, env) == Some(Reading(Eval(r.value, env), |tokens|))
    {
      hide Eval, Val, EndX, InX, RefOr;
      NothingPending();
      AcceptsLanguage(tokens);
      var ok;
      ghost var t;
      ok, t := X([], [], Context([], [], 0));
      if !ok || pos < |tokens| {
        return None;
      }
      r := Some(operands[|operands| - 1]);
      forall env
        ensures RefOr(tokens, 0, env) == Some(Reading(Eval(t, env), |tokens|))
      {
        RefOrEnd(tokens, 0, env);
        RefOrVal(tokens, 0, env, false);
      }
    }
  }
}
