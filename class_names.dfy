/**
 `cx(...classes)`: joins conditional CSS class names. Each argument is a
 string, `false`, `null` or `undefined`; the truthy ones (the non-empty
 strings) are joined with single spaces, in argument order.
 */
module ClassNames {
  import opened JsString

  datatype ClassArg = Str(name: string) | False | Null | Undefined

  /** `Boolean(arg)`: only a non-empty string is truthy. */
  predicate Truthy(arg: ClassArg)
  {
    arg.Str? && arg.name != ""
  }

  /** `classes.filter(Boolean)`: the truthy arguments' strings, in argument order. */
  function Kept(args: seq<ClassArg>): (r: seq<string>)
    ensures |r| <= |args|
    ensures forall i :: 0 <= i < |r| ==> r[i] != ""
    ensures |r| == 0 <==> forall i :: 0 <= i < |args| ==> !Truthy(args[i])
    decreases |args|
  {
    if |args| == 0 then []
    else
      var rest := Kept(args[1..]);
      assert forall i :: 1 <= i < |args| ==> args[i] == args[1..][i - 1];
      if Truthy(args[0]) then [args[0].name] + rest else rest
  }

  /** `cx(...classes)`. */
  function Cx(args: seq<ClassArg>): (r: string)
    ensures r == "" <==> forall i :: 0 <= i < |args| ==> !Truthy(args[i])
    ensures |args| == 1 && Truthy(args[0]) ==> r == args[0].name
  {
    JoinEmpty(Kept(args), " ");
    assert |args| == 1 ==> args[1..] == [];
    Join(Kept(args), " ")
  }

  /** Every kept string is one of the arguments, and every truthy argument is kept. */
  lemma {:induction false} KeptMembers(args: seq<ClassArg>)
    ensures forall x :: x in Kept(args) ==> Str(x) in args
    ensures forall i :: 0 <= i < |args| && Truthy(args[i]) ==> args[i].name in Kept(args)
    decreases |args|
  {
    if |args| > 0 {
      KeptMembers(args[1..]);
      assert forall i :: 1 <= i < |args| ==> args[i] == args[1..][i - 1];
    }
  }

  /** Filtering distributes over concatenation: the kept strings keep their relative order. */
  lemma {:induction false} KeptAppend(a: seq<ClassArg>, b: seq<ClassArg>)
    ensures Kept(a + b) == Kept(a) + Kept(b)
    decreases |a|
  {
    if |a| == 0 {
      assert a + b == b;
    } else {
      var ab := a + b;
      assert ab[0] == a[0] && ab[1..] == a[1..] + b;
      KeptAppend(a[1..], b);
      var head := if Truthy(a[0]) then [a[0].name] else [];
      assert Kept(ab) == head + Kept(a[1..] + b);
      assert Kept(a) == head + Kept(a[1..]);
    }
  }

  /**
   The classes of a concatenation of argument lists are the classes of the
   first list, a space, then the classes of the second: order is preserved.
   */
  lemma CxAppend(a: seq<ClassArg>, b: seq<ClassArg>)
    ensures Cx(a + b) ==
      if Cx(a) == "" then Cx(b)
      else if Cx(b) == "" then Cx(a)
      else Cx(a) + " " + Cx(b)
  {
    KeptAppend(a, b);
    JoinAppend(Kept(a), Kept(b), " ");
    JoinEmpty(Kept(a), " ");
    JoinEmpty(Kept(b), " ");
  }

  /** A falsy argument (`false`, `null`, `undefined` or `""`) contributes nothing, wherever it stands. */
  lemma FalsyContributesNothing(a: seq<ClassArg>, f: ClassArg, b: seq<ClassArg>)
    requires !Truthy(f)
    ensures Cx(a + [f] + b) == Cx(a + b)
  {
    KeptAppend(a + [f], b);
    KeptAppend(a, [f]);
    KeptAppend(a, b);
    assert Kept([f]) == [] by { assert [f][1..] == []; }
    assert Kept(a + [f]) == Kept(a);
  }

  /**
   Splitting the result at spaces gives back the truthy class names, in
   argument order, when none of them contains a space.
   */
  lemma SplitRecoversClasses(args: seq<ClassArg>)
    requires exists i :: 0 <= i < |args| && Truthy(args[i])
    requires forall i :: 0 <= i < |args| && args[i].Str? ==> ' ' !in args[i].name
    ensures Split(Cx(args), ' ') == Kept(args)
  {
    var kept := Kept(args);
    KeptMembers(args);
    forall i | 0 <= i < |kept|
      ensures ' ' !in kept[i]
    {
      assert Str(kept[i]) in args;
    }
    SplitJoin(kept, ' ');
  }
}
