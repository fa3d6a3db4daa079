# rust101 snippets, modelled in Dafny

The repository is a set of annotated Rust tutorial snippets. This project models the only part of
src/lib.rs that behaves in a way one can state: the small integer functions, the two conditional
encodings of one mapping, the `SomeData` struct with its literal, update and destructuring forms,
`print_if_mine` in both its free-function and method forms, and the block and shadowing snippets.

- `int32.dfy`, module `Int32`: Rust's `i32` as a subrange of `int`, and `+` and `*` with the
  overflow check of a debug build. When the mathematical result does not fit, the operation panics
  with Rust's text ("attempt to add with overflow", "attempt to multiply with overflow"). A panic is
  modelled as the `Panicked` alternative of `Outcome`.
- `display.dfy`, module `Display`: the `{}` formatting `println!` applies to an integer (an optional
  `-`, then decimal digits without leading zeros), with a parser `Parse`
  that reads back what `Format` writes (`Parse(Format(x)) == Some(x)`). `Parse` also accepts text
  `Format` never writes, such as `007` or `-0`.
- `lib.dfy`, module `Lib`: the snippets. The struct `SomeData` (src/lib.rs:175-178) is the datatype
  `Lib.SomeData`, with the fields `my_int: i32` and `is_mine: bool`; its method `print_if_mine` is a
  member function of the datatype. A `println!` is modelled as one string in the list of
  lines the function returns, in output order.

## Model

| member | source | states |
|---|---|---|
| `Int32.CheckedAdd` | src/lib.rs:69 | `i32` addition returns exactly when the sum fits in -2^31..2^31-1, and then returns the sum; otherwise it panics with the add-overflow message |
| `Int32.CheckedMul` | src/lib.rs:82 | `i32` multiplication returns exactly when the product fits, and then returns the product; otherwise it panics with the multiply-overflow message |
| `Lib.Add` | src/lib.rs:68-70 | `add` returns `first + second` exactly when the sum is in the `i32` range; otherwise it panics with the add-overflow message |
| `Lib.SimplerAdd` | src/lib.rs:72-78 | `simpler_add` returns `first + second` exactly when the sum is in the `i32` range; otherwise it panics with the add-overflow message |
| `Lib.SimplerAddIsAdd` | src/lib.rs:68-78 | `simpler_add` and `add` have the same outcome on every input, panics included |
| `Lib.AddAndSquare` | src/lib.rs:80-83 | a returned value is `(thing+1)*(thing+1)`; `thing == i32::MAX` panics in the addition; every other panic is in the multiplication |
| `Lib.AddAndSquareReturns` | src/lib.rs:80-83 | `add_and_square` returns exactly when -46341 <= thing <= 46339, and what it returns is never negative |
| `Lib.Blocks` | src/lib.rs:96-105 | the shadowing `x` inside the block is seen only there: the output is "in" then "out" |
| `Lib.BlocksAreExpressions` | src/lib.rs:107-122 | the literal, the `{ 123 }` block and the block with statements all bind `x` to 123 |
| `Lib.WhatIfElseCanDo` | src/lib.rs:124-130 | the result is 100 exactly for `true` and -100 exactly for `false` |
| `Lib.MatchCanDoBetter` | src/lib.rs:132-138 | the result is 100 exactly for `true` and -100 exactly for `false` |
| `Lib.IfAndMatchAgree` | src/lib.rs:124-138 | the `match` and the `if` give the same result on both inputs; as an extra fact, negating the input negates the result |
| `Lib.NotMine` | src/lib.rs:193-196 | `SomeData { is_mine: false, ..d }` keeps `my_int` and has `is_mine == false` |
| `Lib.CopyOf` | src/lib.rs:198 | `SomeData { ..d }` equals `d` |
| `Lib.Destructure` | src/lib.rs:201 | the destructured fields rebuild the original value |
| `Lib.FieldOrderIrrelevant` | src/lib.rs:182-190 | the two field orders of a literal give the same value |
| `Lib.DestructureLiteral` | src/lib.rs:201-202 | destructuring a literal yields its two fields in declaration order |
| `Lib.CreatingValues` | src/lib.rs:180-203 | both literals are `(123, true)` and equal; `not_my_data` is `(123, false)`; the copy equals the original; destructuring gives `(123, true)` |
| `Lib.Line` | src/lib.rs:207 | each printed line starts with "My data is: " and has text after it |
| `Display.Format` | src/lib.rs:207 | `{}` on an integer is nonempty, starts with `-` exactly for negative numbers, is otherwise all digits, and has no leading zero (a text starting with `0` is exactly `0`; no `-0`) |
| `Display.ParseFormat` | src/lib.rs:207 | parsing the text `{}` wrote gives back the number |
| `Display.FormatInjective` | src/lib.rs:207 | two numbers are written the same exactly when they are equal |
| `Lib.ReportLine` | src/lib.rs:207 | the number can be read back from a printed line: it is the `my_int` the line was written for |
| `Lib.IfBranch` | src/lib.rs:206-208 | the plain `if` writes one line exactly when `is_mine` holds, and that line is the one for `my_int` |
| `Lib.IfLetBranch` | src/lib.rs:210-216 | the `if let` writes one line exactly when the pattern `is_mine: true` matches, and that line is the one for `my_int` |
| `Lib.BranchesAgree` | src/lib.rs:205-217 | the `if` and the `if let` fire under the same condition (`is_mine`) with the same line |
| `Lib.PrintIfMine` | src/lib.rs:205-217 | the free function writes two lines exactly when `is_mine` holds and none otherwise, each reporting `my_int` |
| `Lib.PrintIfMineReports` | src/lib.rs:205-217 | every line the free function writes reads back as `data.my_int` |
| `Lib.SomeData.PrintIfMine` | src/lib.rs:220-225 | the method writes the one line for `my_int` when `is_mine` holds and nothing otherwise |
| `Lib.PrintIfMineIsMethodTwice` | src/lib.rs:205-225 | the free function writes exactly the method's output twice, once per branch |

## Left out

- Release builds: there, `i32` overflow wraps around instead of panicking. The model follows the
  debug-build check, which is the default for `cargo build` and `cargo test`.
- Console I/O: what `println!` writes is returned as a list of lines. Nothing is written anywhere.
- `methods_and_imports` (src/lib.rs:140-172): it only calls `max` and `str::len` from the standard
  library, which is not part of this model.
- `some_func` (src/lib.rs:236-238): its body is `todo!()`, which always panics. The tuple
  destructuring in `lets_move_on_to_other_types` depends on it.
- `empty_function` (src/lib.rs:14): its body is empty, so it does nothing.
- `lets_talk_about_variables`, `lets_move_on_to_other_types`, `returns_nothing` and `printer`: they
  bind values that nothing uses, or print a fixed string. The overflowing literal is a
  compile-time lint, and it only appears in comments (src/lib.rs:32-43).
- src/owners.rs: ownership and borrowing rules. The compiler checks these, and they have no runtime
  behaviour to state.
- src/null.rs: type declarations (`Abc`, `Age`, `CStyleEnum`, `MyInt`, `MyOption`) with no operations.
