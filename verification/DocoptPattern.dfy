// Pattern trees of the usage language, and the names that leaves carry.
module DocoptPattern {
  import opened Basics

  datatype Kind = Required | Optional | OptionsShortcut | OneOrMore | Either

  /** A pattern tree over some type of leaves. */
  datatype Pattern<L> = Tip(leaf: L) | Branch(kind: Kind, children: seq<Pattern<L>>)

  /** The part of a leaf that never changes: its class and its names. */
  datatype Id =
    | Arg(argName: Maybe<string>)
    | Cmd(cmdName: string)
    | Opt(short: Maybe<string>, long: Maybe<string>, argcount: nat)

  /** The value a leaf holds; accumulating leaves hold a Num or a List. */
  datatype Value = Null | Flag(on: bool) | Num(n: int) | Str(s: string) | List(items: seq<string>)

  function Name(id: Id): Maybe<string> {
    match id
    case Arg(name) => name
    case Cmd(name) => Just(name)
    case Opt(short, long, _) => if long.Just? && long.value != "" then long else short
  }

  /** What the assertion in the repetition's match demands of a pattern. */
  ghost predicate Unary<L>(p: Pattern<L>)
    decreases p
  {
    p.Branch? ==>
      && (p.kind == OneOrMore ==> |p.children| == 1)
      && forall c <- p.children :: Unary(c)
  }

  /** Every Either has branches. */
  ghost predicate Inhabited<L>(p: Pattern<L>)
    decreases p
  {
    p.Branch? ==> (p.kind == Either ==> p.children != []) && forall c <- p.children :: Inhabited(c)
  }

  /** The leaves of a tree from left to right. */
  function Flat<L>(p: Pattern<L>): seq<L>
    decreases p, 1
  {
    match p
    case Tip(l) => [l]
    case Branch(_, cs) => FlatAll(cs)
  }

  function FlatAll<L>(ps: seq<Pattern<L>>): seq<L>
    decreases ps, 0
  {
    if ps == [] then [] else Flat(ps[0]) + FlatAll(ps[1..])
  }

  /** The same tree with every leaf replaced by its image. */
  ghost function MapTree<L, M>(f: L -> M, p: Pattern<L>): Pattern<M>
    decreases p, 1
  {
    match p
    case Tip(l) => Tip(f(l))
    case Branch(k, cs) => Branch(k, MapAll(f, cs))
  }

  ghost function MapAll<L, M>(f: L -> M, ps: seq<Pattern<L>>): (r: seq<Pattern<M>>)
    ensures |r| == |ps|
    decreases ps, 0
  {
    if ps == [] then [] else [MapTree(f, ps[0])] + MapAll(f, ps[1..])
  }

  lemma {:induction false} MapAllAt<L, M>(f: L -> M, ps: seq<Pattern<L>>, i: nat)
    requires i < |ps|
    ensures MapAll(f, ps)[i] == MapTree(f, ps[i])
  {
    if i > 0 { MapAllAt(f, ps[1..], i - 1); }
  }

  lemma {:induction false} FlatAllAppend<L>(a: seq<Pattern<L>>, b: seq<Pattern<L>>)
    ensures FlatAll(a + b) == FlatAll(a) + FlatAll(b)
  {
    if a == [] {
      assert a + b == b;
    } else {
      assert (a + b)[1..] == a[1..] + b;
      FlatAllAppend(a[1..], b);
    }
  }

  lemma {:induction false} FlatChild<L>(ps: seq<Pattern<L>>, i: nat)
    requires i < |ps|
    ensures forall l <- Flat(ps[i]) :: l in FlatAll(ps)
  {
    if i > 0 { FlatChild(ps[1..], i - 1); }
  }
}
