/**
 * The `xor` condition as `lib/condition/xor_test.go` pins it down: a
 * condition over child conditions that holds exactly when one child holds,
 * and whose construction fails when a child cannot be built (a text
 * condition with an unknown operator).
 *
 * Which text operators exist and what a text condition says about a message
 * are oracles: `known(operator)` and `textCheck(operator, arg, message)`.
 */
module XorCondition {
  import opened Wrappers
  import opened Message

  // ---------------------------------------------------------------------------
  // Exactly one
  // ---------------------------------------------------------------------------

  /** The number of passing results. */
  function CountTrue(rs: seq<bool>): nat
  {
    if rs == [] then 0 else (if rs[0] then 1 else 0) + CountTrue(rs[1..])
  }

  /**
   * The child loop of `Xor.Check`: walk the results in order, remembering
   * whether one has passed, and fail as soon as a second one passes.
   */
  function XorFrom(rs: seq<bool>, hadPassed: bool): (b: bool)
    ensures b ==> hadPassed || true in rs
    ensures hadPassed && true in rs ==> !b
  {
    if rs == [] then hadPassed
    else if rs[0] then (if hadPassed then false else XorFrom(rs[1..], true))
    else XorFrom(rs[1..], hadPassed)
  }

  /** `Xor.Check`: the walk starts with no child passed. */
  function Xor(rs: seq<bool>): (b: bool)
    ensures b ==> true in rs
  {
    XorFrom(rs, false)
  }

  lemma {:induction false} XorFromCount(rs: seq<bool>, hadPassed: bool)
    ensures XorFrom(rs, hadPassed) <==> CountTrue(rs) + (if hadPassed then 1 else 0) == 1
  {
    if rs != [] {
      XorFromCount(rs[1..], rs[0] || hadPassed);
    }
  }

  /** The loop passes exactly when exactly one result passes. */
  lemma XorIsExactlyOne(rs: seq<bool>)
    ensures Xor(rs) <==> CountTrue(rs) == 1
  {
    XorFromCount(rs, false);
  }

  /** The count of passing results is how often `true` occurs among them. */
  lemma {:induction false} CountIsMultiplicity(rs: seq<bool>)
    ensures CountTrue(rs) == multiset(rs)[true]
  {
    if rs != [] {
      CountIsMultiplicity(rs[1..]);
      assert rs == [rs[0]] + rs[1..];
      assert multiset(rs) == multiset([rs[0]]) + multiset(rs[1..]);
    }
  }

  /** The result ignores the order of the children. */
  lemma XorIgnoresOrder(a: seq<bool>, b: seq<bool>)
    requires multiset(a) == multiset(b)
    ensures Xor(a) == Xor(b)
  {
    XorIsExactlyOne(a);
    XorIsExactlyOne(b);
    CountIsMultiplicity(a);
    CountIsMultiplicity(b);
  }

  /** The six cases of TestXorCheck, and no children at all. */
  lemma XorTable()
    ensures Xor([true])
    ensures !Xor([true, true])
    ensures !Xor([false])
    ensures !Xor([false, false])
    ensures Xor([false, true])
    ensures Xor([true, false])
    ensures !Xor([])
  {
  }

  // ---------------------------------------------------------------------------
  // Conditions
  // ---------------------------------------------------------------------------

  /** A condition configuration: a text condition, or an xor over child configurations. */
  datatype Config = TextConfig(operator: string, arg: string) | XorConfig(children: seq<Config>)

  /** A constructed condition. */
  datatype Condition = TextCond(operator: string, arg: string) | XorCond(children: seq<Condition>)

  /** Why construction failed: an unknown text operator, reached through the children at the given indices. */
  datatype BuildError = UnknownOperator(operator: string) | ChildFailed(index: nat, inner: BuildError)

  /** Every text condition in the configuration names a known operator. */
  predicate AllKnown(conf: Config, known: string -> bool)
  {
    match conf
    case TextConfig(op, _) => known(op)
    case XorConfig(cs) => forall i :: 0 <= i < |cs| ==> AllKnown(cs[i], known)
  }

  /** The condition a configuration describes, built node for node. */
  predicate Mirrors(c: Condition, conf: Config)
  {
    match conf
    case TextConfig(op, arg) => c == TextCond(op, arg)
    case XorConfig(cs) => c.XorCond? && |c.children| == |cs| && forall i :: 0 <= i < |cs| ==> Mirrors(c.children[i], cs[i])
  }

  /** `condition.New`: build a condition, failing on the first child that cannot be built. */
  function Build(conf: Config, known: string -> bool): (r: Result<Condition, BuildError>)
    ensures conf.TextConfig? ==> (r.Success? <==> known(conf.operator))
    ensures r.Success? ==> (r.value.XorCond? <==> conf.XorConfig?)
    ensures conf.XorConfig? && r.Failure? ==> r.error.ChildFailed? && r.error.index < |conf.children|
    decreases conf, 1, 0
  {
    match conf
    case TextConfig(op, arg) => if known(op) then Success(TextCond(op, arg)) else Failure(UnknownOperator(op))
    case XorConfig(cs) =>
      match BuildChildren(conf, 0, known)
      case Success(children) => Success(XorCond(children))
      case Failure(e) => Failure(e)
  }

  /** `NewXor`'s loop: build the children from index `i` on, in order. */
  function BuildChildren(parent: Config, i: nat, known: string -> bool): (r: Result<seq<Condition>, BuildError>)
    requires parent.XorConfig? && i <= |parent.children|
    ensures r.Success? ==> |r.value| == |parent.children| - i
    ensures r.Failure? ==>
      && r.error.ChildFailed? && i <= r.error.index < |parent.children|
      && Build(parent.children[r.error.index], known).Failure?
    decreases parent, 0, |parent.children| - i
  {
    if i == |parent.children| then Success([])
    else
      match Build(parent.children[i], known)
      case Failure(e) => Failure(ChildFailed(i, e))
      case Success(c) =>
        match BuildChildren(parent, i + 1, known)
        case Failure(e) => Failure(e)
        case Success(rest) => Success([c] + rest)
  }

  /**
   * Construction succeeds exactly when every text condition in the tree has
   * a known operator, and then builds the condition the configuration
   * describes.
   */
  lemma {:induction false} BuildSpec(conf: Config, known: string -> bool)
    ensures Build(conf, known).Success? <==> AllKnown(conf, known)
    ensures Build(conf, known).Success? ==> Mirrors(Build(conf, known).value, conf)
    decreases conf, 1
  {
    if conf.XorConfig? {
      BuildChildrenSpec(conf, 0, known);
    }
  }

  lemma {:induction false} BuildChildrenSpec(parent: Config, i: nat, known: string -> bool)
    requires parent.XorConfig? && i <= |parent.children|
    ensures var r := BuildChildren(parent, i, known);
      && (r.Success? <==> forall j :: i <= j < |parent.children| ==> AllKnown(parent.children[j], known))
      && (r.Success? ==> |r.value| == |parent.children| - i)
      && (r.Success? ==> forall j :: i <= j < |parent.children| ==> Mirrors(r.value[j - i], parent.children[j]))
    decreases parent, 0, |parent.children| - i
  {
    if i < |parent.children| {
      BuildSpec(parent.children[i], known);
      BuildChildrenSpec(parent, i + 1, known);
    }
  }

  /** `Check`: a text condition asks the oracle, an xor condition runs its children through the xor loop. */
  function Check(c: Condition, msg: seq<Payload>, textCheck: (string, string, seq<Payload>) -> bool): (b: bool)
    ensures c.XorCond? && c.children == [] ==> !b
    decreases c
  {
    match c
    case TextCond(op, arg) => textCheck(op, arg, msg)
    case XorCond(cs) => Xor(ChildResults(cs, msg, textCheck))
  }

  /** The results of the children of an xor condition, in order. */
  function ChildResults(cs: seq<Condition>, msg: seq<Payload>, textCheck: (string, string, seq<Payload>) -> bool): (rs: seq<bool>)
    ensures |rs| == |cs| && forall i :: 0 <= i < |cs| ==> rs[i] == Check(cs[i], msg, textCheck)
    decreases cs
  {
    seq(|cs|, i requires 0 <= i < |cs| => Check(cs[i], msg, textCheck))
  }

  /** An xor condition holds exactly when exactly one of its children holds. */
  lemma CheckXor(cs: seq<Condition>, msg: seq<Payload>, textCheck: (string, string, seq<Payload>) -> bool)
    ensures Check(XorCond(cs), msg, textCheck) <==> CountTrue(ChildResults(cs, msg, textCheck)) == 1
  {
    XorIsExactlyOne(ChildResults(cs, msg, textCheck));
  }

  /**
   * TestXorCheck and TestXorBadOperator: with a passing and a failing text
   * condition, xor configurations build, and check as the table says; a
   * child with an unknown operator makes construction fail.
   */
  lemma XorTests(msg: seq<Payload>, known: string -> bool, textCheck: (string, string, seq<Payload>) -> bool)
    requires known("contains") && !known("NOT_EXIST")
    requires textCheck("contains", "foo", msg) && !textCheck("contains", "bar", msg)
    ensures var pass, fail := TextConfig("contains", "foo"), TextConfig("contains", "bar");
      && Outcome(XorConfig([pass]), msg, known, textCheck) == Some(true)
      && Outcome(XorConfig([pass, pass]), msg, known, textCheck) == Some(false)
      && Outcome(XorConfig([fail]), msg, known, textCheck) == Some(false)
      && Outcome(XorConfig([fail, fail]), msg, known, textCheck) == Some(false)
      && Outcome(XorConfig([fail, pass]), msg, known, textCheck) == Some(true)
      && Outcome(XorConfig([pass, fail]), msg, known, textCheck) == Some(true)
      && Build(XorConfig([TextConfig("NOT_EXIST", "")]), known).Failure?
  {
    var pass, fail := TextConfig("contains", "foo"), TextConfig("contains", "bar");
    var p, f := TextCond("contains", "foo"), TextCond("contains", "bar");
    BuildLeaves([pass], known);
    BuildLeaves([pass, pass], known);
    BuildLeaves([fail], known);
    BuildLeaves([fail, fail], known);
    BuildLeaves([fail, pass], known);
    BuildLeaves([pass, fail], known);
    assert Leaves([pass]) == [p];
    assert Leaves([pass, pass]) == [p, p];
    assert Leaves([fail]) == [f];
    assert Leaves([fail, fail]) == [f, f];
    assert Leaves([fail, pass]) == [f, p];
    assert Leaves([pass, fail]) == [p, f];
    assert ChildResults([p], msg, textCheck) == [true];
    assert ChildResults([p, p], msg, textCheck) == [true, true];
    assert ChildResults([f], msg, textCheck) == [false];
    assert ChildResults([f, f], msg, textCheck) == [false, false];
    assert ChildResults([f, p], msg, textCheck) == [false, true];
    assert ChildResults([p, f], msg, textCheck) == [true, false];
    BuildSpec(XorConfig([TextConfig("NOT_EXIST", "")]), known);
    assert !AllKnown(TextConfig("NOT_EXIST", ""), known);
    XorTable();
  }

  /** The text conditions a row of text configurations builds. */
  function Leaves(cs: seq<Config>): (r: seq<Condition>)
    requires forall i :: 0 <= i < |cs| ==> cs[i].TextConfig?
    ensures |r| == |cs| && forall i :: 0 <= i < |cs| ==> r[i] == TextCond(cs[i].operator, cs[i].arg)
  {
    seq(|cs|, i requires 0 <= i < |cs| => TextCond(cs[i].operator, cs[i].arg))
  }

  /** An xor of text configurations with known operators builds the xor of their text conditions. */
  lemma BuildLeaves(cs: seq<Config>, known: string -> bool)
    requires forall i :: 0 <= i < |cs| ==> cs[i].TextConfig? && known(cs[i].operator)
    ensures Build(XorConfig(cs), known) == Success(XorCond(Leaves(cs)))
  {
    BuildSpec(XorConfig(cs), known);
    var v := Build(XorConfig(cs), known).value;
    assert v.children == Leaves(cs);
  }

  /** Build a configuration and check it against a message: None when construction fails. */
  function Outcome(conf: Config, msg: seq<Payload>, known: string -> bool, textCheck: (string, string, seq<Payload>) -> bool): Option<bool>
  {
    match Build(conf, known)
    case Success(c) => Some(Check(c, msg, textCheck))
    case Failure(_) => None
  }
}
