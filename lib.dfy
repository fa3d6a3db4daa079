/** The behaviour of the snippets in src/lib.rs. They have no loops and
    mutate nothing, so each becomes a Dafny function; `println!` becomes
    the list of lines the call writes, in order. Integer snippets return an
    `Outcome`, because a debug build panics on `i32` overflow. */
module Lib {
  import opened Int32
  import opened Display

  // ----- Functions with arguments and return values

  /** `add`: the sum written with an explicit `return` statement. */
  function Add(first: i32, second: i32): (r: Outcome<i32>)
    ensures r.Returned? <==> MIN <= first + second <= MAX
    ensures r.Returned? ==> r.value == first + second
    ensures r.Panicked? ==> r.message == ADD_OVERFLOW
  {
    CheckedAdd(first, second)
  }

  /** `simpler_add`: the same sum as the body's tail expression. */
  function SimplerAdd(first: i32, second: i32): (r: Outcome<i32>)
    ensures r.Returned? <==> MIN <= first + second <= MAX
    ensures r.Returned? ==> r.value == first + second
    ensures r.Panicked? ==> r.message == ADD_OVERFLOW
  {
    CheckedAdd(first, second)
  }

  /** Dropping the `return` and the semicolon changes nothing. */
  lemma SimplerAddIsAdd(first: i32, second: i32)
    ensures SimplerAdd(first, second) == Add(first, second)
  {
  }

  /** `add_and_square`: `thing + 1` bound to `added`, then `added * added`. */
  function AddAndSquare(thing: i32): (r: Outcome<i32>)
    ensures r.Returned? ==> r.value == (thing + 1) * (thing + 1)
    ensures thing == MAX ==> r == Panicked(ADD_OVERFLOW)
    ensures r.Panicked? && thing != MAX ==> r.message == MUL_OVERFLOW
  {
    match CheckedAdd(thing, 1)
    case Panicked(message) => Panicked(message)
    case Returned(added) => CheckedMul(added, added)
  }

  /** The largest `a` whose square fits in an `i32`. */
  const SQRT_MAX: int := 46340

  lemma SquareMonotone(a: nat, b: nat)
    requires a <= b
    ensures a * a <= b * b
  {
  }

  /** `add_and_square` returns exactly when `thing + 1` is within `SQRT_MAX`
      of zero, and what it returns is never negative. */
  lemma AddAndSquareReturns(thing: i32)
    ensures AddAndSquare(thing).Returned? <==> -SQRT_MAX - 1 <= thing <= SQRT_MAX - 1
    ensures AddAndSquare(thing).Returned? ==> AddAndSquare(thing).value >= 0
  {
    if thing != MAX {
      var added: int := thing + 1;
      var m: nat := if added < 0 then -added else added;
      assert added * added == m * m;
      if m <= SQRT_MAX {
        SquareMonotone(m, SQRT_MAX);
      } else {
        SquareMonotone(SQRT_MAX + 1, m);
      }
    }
  }

  // ----- Blocks

  /** `blocks`: the inner `x` shadows the outer one only inside the block,
      so the first line written is "in" and the second "out". */
  function Blocks(): (lines: seq<string>)
    ensures lines == ["in", "out"]
  {
    var x := "out";
    var inner := (var x := "in"; [x]);
    inner + [x]
  }

  /** `blocks_are_expressions`: the three bindings of `x`, in order. */
  function BlocksAreExpressions(): (xs: (i32, i32, i32))
    ensures xs.0 == 123 && xs.1 == 123 && xs.2 == 123
  {
    var x0: i32 := 123;
    var x1: i32 := (123);
    var x2: i32 := (var hundred: i32 := 100; var twenty: i32 := 20; var three: i32 := 3; hundred + twenty + three);
    (x0, x1, x2)
  }

  // ----- Conditionals

  /** `what_if_else_can_do`: an `if` used as an expression. */
  function WhatIfElseCanDo(thisIsTrue: bool): (r: i32)
    ensures thisIsTrue <==> r == 100
    ensures !thisIsTrue <==> r == -100
  {
    if thisIsTrue then 100 else -100
  }

  /** `match_can_do_better`: the same mapping as a `match` on the two booleans. */
  function MatchCanDoBetter(whatIsThis: bool): (r: i32)
    ensures whatIsThis <==> r == 100
    ensures !whatIsThis <==> r == -100
  {
    match whatIsThis
    case true => 100
    case false => -100
  }

  /** The `if` and the `match` compute the same function. The second
      clause, that the mapping is odd, is an extra fact the snippets do not state. */
  lemma IfAndMatchAgree(b: bool)
    ensures MatchCanDoBetter(b) == WhatIfElseCanDo(b)
    ensures MatchCanDoBetter(!b) == -MatchCanDoBetter(b)
  {
  }

  // ----- The SomeData struct

  datatype SomeData = SomeData(my_int: i32, is_mine: bool) {

    /** The method `print_if_mine(self)`: one line if the data is ours. */
    function PrintIfMine(): (lines: seq<string>)
      ensures is_mine ==> lines == [Line(my_int)]
      ensures !is_mine ==> lines == []
    {
      if this.is_mine then [Line(this.my_int)] else []
    }
  }

  /** `SomeData { is_mine: false, ..d }`. */
  function NotMine(d: SomeData): (r: SomeData)
    ensures r.my_int == d.my_int && !r.is_mine
  {
    d.(is_mine := false)
  }

  /** `SomeData { ..d }`: every field taken from `d`. */
  function CopyOf(d: SomeData): (r: SomeData)
    ensures r == d
  {
    SomeData(my_int := d.my_int, is_mine := d.is_mine)
  }

  /** `let SomeData { my_int, is_mine } = d;` */
  function Destructure(d: SomeData): (fields: (i32, bool))
    ensures SomeData(fields.0, fields.1) == d
  {
    var SomeData(my_int, is_mine) := d;
    (my_int, is_mine)
  }

  /** The order of the fields in a struct literal does not matter. */
  lemma FieldOrderIrrelevant(i: i32, b: bool)
    ensures SomeData(is_mine := b, my_int := i) == SomeData(my_int := i, is_mine := b)
  {
  }

  /** Destructuring a literal gives back its fields. */
  lemma DestructureLiteral(i: i32, b: bool)
    ensures Destructure(SomeData(my_int := i, is_mine := b)) == (i, b)
  {
  }

  /** The values `creating_values` binds, in order. */
  datatype Created = Created(
    someData: SomeData,
    reordered: SomeData,
    notMyData: SomeData,
    copyOfSomeData: SomeData,
    destructured: (i32, bool))

  /** `creating_values`. */
  function CreatingValues(): (v: Created)
    ensures v.someData.my_int == 123 && v.someData.is_mine
    ensures v.reordered == v.someData
    ensures v.notMyData.my_int == 123 && !v.notMyData.is_mine
    ensures v.copyOfSomeData == v.someData
    ensures v.destructured == (123, true)
  {
    var someData := SomeData(my_int := 123, is_mine := true);
    var reordered := SomeData(is_mine := true, my_int := 123);
    // From here on `some_data` names the second literal, which shadows the first.
    var notMyData := NotMine(reordered);
    var copyOfSomeData := CopyOf(reordered);
    Created(someData, reordered, notMyData, copyOfSomeData, Destructure(reordered))
  }

  // ----- print_if_mine

  const PREFIX: string := "My data is: "

  /** The line `println!("My data is: {}", x)` writes. */
  function Line(x: i32): (line: string)
    ensures |line| > |PREFIX| && line[..|PREFIX|] == PREFIX
  {
    PREFIX + Format(x)
  }

  /** Reads the number back from a line written by `Line`. */
  function Report(line: string): (r: Option<int>)
    ensures |line| <= |PREFIX| ==> r == None
  {
    if |line| > |PREFIX| && line[..|PREFIX|] == PREFIX then Parse(line[|PREFIX|..]) else None
  }

  /** Each line names the number it was written for. */
  lemma ReportLine(x: i32)
    ensures Report(Line(x)) == Some(x as int)
  {
    assert Line(x)[|PREFIX|..] == Format(x);
    ParseFormat(x);
  }

  /** The plain `if` on `data.is_mine`. */
  function IfBranch(data: SomeData): (lines: seq<string>)
    ensures |lines| <= 1
    ensures data.is_mine <==> |lines| == 1
    ensures forall l <- lines :: l == Line(data.my_int)
  {
    if data.is_mine then [Line(data.my_int)] else []
  }

  /** The `if let SomeData { is_mine: true, my_int } = data` pattern. */
  function IfLetBranch(data: SomeData): (lines: seq<string>)
    ensures |lines| <= 1
    ensures data.is_mine <==> |lines| == 1
    ensures forall l <- lines :: l == Line(data.my_int)
  {
    match data
    case SomeData(my_int, true) => [Line(my_int)]
    case SomeData(_, false) => []
  }

  /** Both branches fire under the same condition with the same payload. */
  lemma BranchesAgree(data: SomeData)
    ensures IfBranch(data) == IfLetBranch(data)
    ensures |IfLetBranch(data)| == 1 <==> data.is_mine
  {
  }

  /** The free function `print_if_mine`: the `if`, then the `if let`. */
  function PrintIfMine(data: SomeData): (lines: seq<string>)
    ensures data.is_mine <==> |lines| == 2
    ensures !data.is_mine <==> lines == []
    ensures forall i :: 0 <= i < |lines| ==> lines[i] == Line(data.my_int)
  {
    IfBranch(data) + IfLetBranch(data)
  }

  /** What `print_if_mine` writes reports `data.my_int` and nothing else. */
  lemma PrintIfMineReports(data: SomeData)
    ensures forall i :: 0 <= i < |PrintIfMine(data)| ==> Report(PrintIfMine(data)[i]) == Some(data.my_int as int)
  {
    ReportLine(data.my_int);
  }

  /** The free function writes the method's output once per branch. */
  lemma PrintIfMineIsMethodTwice(data: SomeData)
    ensures PrintIfMine(data) == data.PrintIfMine() + data.PrintIfMine()
  {
  }
}
