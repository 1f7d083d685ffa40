/** What the grammar does not see: how statements are separated (parse.go:563-754), and what
    formatting does to a block body (format.go:99-186). */
module ParserLaws {
  import opened Ast
  import opened Quoting
  import opened Grammar

  // ----- Separators -----

  /** The same symbols, apart from gaps that do not matter: ';' for a line break and back anywhere,
      separators added or dropped before a closing brace, after an opening one and, if `free`, in front. */
  ghost predicate Respaced(a: seq<Mark>, b: seq<Mark>, free: bool) {
    if a == [] || b == [] then a == b
    else
      && a[0].sym == b[0].sym
      && (free || a[0].sym == Close || (a[0].gap == Tight) == (b[0].gap == Tight))
      && Respaced(a[1..], b[1..], a[0].sym == Open)
  }

  /** Two results agree: the same error, or the same value with rests that differ in separators only. */
  ghost predicate Same<T>(p: Parsed<T>, q: Parsed<T>) {
    if p.Err? || q.Err? then p == q else p.value == q.value && Respaced(p.rest, q.rest, false)
  }

  lemma {:induction false} RespacedLength(a: seq<Mark>, b: seq<Mark>, free: bool)
    requires Respaced(a, b, free)
    ensures |a| == |b|
  {
    if a != [] && b != [] {
      RespacedLength(a[1..], b[1..], a[0].sym == Open);
    }
  }

  lemma {:induction false} RespacedWords(a: seq<Mark>, b: seq<Mark>)
    requires Respaced(a, b, false)
    ensures var n := Words(a);
            && Words(b) == n && Respaced(a[n..], b[n..], false)
            && forall i :: 0 <= i < n ==> a[i].sym == b[i].sym
  {
    if Words(a) > 0 {
      RespacedWords(a[1..], b[1..]);
      var n := Words(a[1..]);
      assert a[1..][n..] == a[1 + n..] && b[1..][n..] == b[1 + n..];
      assert forall i :: 1 <= i < 1 + n ==> a[i] == a[1..][i - 1] && b[i] == b[1..][i - 1];
    } else {
      assert a[0..] == a && b[0..] == b;
    }
  }

  lemma SameArgs(a: seq<Mark>, b: seq<Mark>)
    requires |a| == |b|
    requires forall i :: 0 <= i < |a| ==> a[i].sym.Word? && a[i].sym == b[i].sym
    ensures ArgsOf(a) == ArgsOf(b)
  {
  }

  lemma RespacedEnds(a: seq<Mark>, b: seq<Mark>)
    requires Respaced(a, b, false)
    ensures EndsHere(a) == EndsHere(b) && OpensHere(a) == OpensHere(b)
    ensures OpensHere(a) ==> Respaced(a[1..], b[1..], true)
  {
  }

  /** The words after a statement's first symbol. */
  lemma RespacedTail(a: seq<Mark>, b: seq<Mark>)
    requires a != [] && b != [] && a[0].sym.Word? && Respaced(a, b, true)
    ensures var n := Words(a[1..]);
            && Words(b[1..]) == n && Respaced(a[1 + n..], b[1 + n..], false)
            && (forall i :: 1 <= i < 1 + n ==> a[i].sym.Word? && b[i].sym.Word?)
            && ArgsOf(a[1..1 + n]) == ArgsOf(b[1..1 + n])
            && (n > 0 ==> a[1].sym == b[1].sym && ArgsOf(a[2..1 + n]) == ArgsOf(b[2..1 + n]))
  {
    hide Respaced, Words;
    assert Respaced(a[1..], b[1..], false) by { RespacedStep(a, b); }
    RespacedWords(a[1..], b[1..]);
    var n := Words(a[1..]);
    assert a[1..][n..] == a[1 + n..] && b[1..][n..] == b[1 + n..];
    assert forall i :: 0 <= i < n ==> a[1 + i] == a[1..][i] && b[1 + i] == b[1..][i];
    SameArgs(a[1..1 + n], b[1..1 + n]);
    if n > 0 {
      SameArgs(a[2..1 + n], b[2..1 + n]);
    }
  }

  lemma RespacedStep(a: seq<Mark>, b: seq<Mark>)
    requires a != [] && b != [] && Respaced(a, b, true)
    ensures a[0].sym == b[0].sym && Respaced(a[1..], b[1..], a[0].sym == Open)
  {
  }

  lemma {:induction false} RespacedStatement(a: seq<Mark>, b: seq<Mark>, depth: nat)
    requires a != [] && b != [] && Respaced(a, b, true)
    ensures Same(Statement(a, depth), Statement(b, depth))
    decreases |a|, 0
  {
    hide Respaced, Words, Block, EndsHere, OpensHere, TypeOk;
    RespacedStep(a, b);
    if a[0].sym.Word? {
      RespacedTail(a, b);
      var n := Words(a[1..]);
      var p, q := a[1 + n..], b[1 + n..];
      RespacedEnds(p, q);
      if !StartsMatcher(a[0].sym) && OpensHere(p) {
        NotEmpty(p);
        NotEmpty(q);
        RespacedBlock(p[1..], q[1..], depth);
        var x, y := Block(p[1..], depth), Block(q[1..], depth);
        if x.Ok? && y.Ok? {
          RespacedEnds(x.rest, y.rest);
        }
      }
    }
  }

  lemma NotEmpty(a: seq<Mark>)
    requires OpensHere(a)
    ensures a != []
  {
  }

  lemma {:induction false} RespacedBlock(a: seq<Mark>, b: seq<Mark>, depth: nat)
    requires Respaced(a, b, true)
    ensures Same(Block(a, depth), Block(b, depth))
    decreases |a|, 2
  {
    hide Respaced, Body;
    RespacedBody(a, b, depth + 1);
  }

  /** A block body parses the same, and fails the same, whatever separators end its statements. */
  lemma {:induction false} RespacedBody(a: seq<Mark>, b: seq<Mark>, depth: nat)
    requires Respaced(a, b, true)
    ensures Same(Body(a, depth), Body(b, depth))
    decreases |a|, 1
  {
    hide Respaced, Statement;
    RespacedLength(a, b, true);
    if a != [] {
      RespacedStep(a, b);
      if a[0].sym == Close {
      } else {
        RespacedStatement(a, b, depth);
        var p, q := Statement(a, depth), Statement(b, depth);
        if p.Ok? {
          Loosen(p.rest, q.rest);
          RespacedBody(p.rest, q.rest, depth);
        }
      }
    }
  }

  lemma Loosen(a: seq<Mark>, b: seq<Mark>)
    requires Respaced(a, b, false)
    ensures Respaced(a, b, true)
  {
  }

  /** And so does an imported fragment. */
  lemma {:induction false} RespacedFragment(a: seq<Mark>, b: seq<Mark>)
    requires Respaced(a, b, true)
    ensures Same(Fragment(a), Fragment(b))
    decreases |a|
  {
    hide Respaced, Statement;
    RespacedLength(a, b, true);
    if a != [] {
      RespacedStep(a, b);
      if a[0].sym != Close {
        RespacedStatement(a, b, 0);
        var p, q := Statement(a, 0), Statement(b, 0);
        if p.Ok? {
          Loosen(p.rest, q.rest);
          RespacedFragment(p.rest, q.rest);
        }
      }
    } else {
      EmptyRespaced();
    }
  }

  lemma EmptyRespaced()
    ensures Respaced([], [], false)
  {
  }
}
