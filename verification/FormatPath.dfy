/**
 * Derivation paths made from a template (`derivef` in lib/src/hd_wallet/hd_wallet.ts): each placeholder, a word in
 * braces, is replaced by the next argument.
 */
module FormatPath {
  import opened Wrappers
  import opened Decimal

  type uint32 = x: nat | x < 0x1_0000_0000

  datatype Error = InsufficientArgument | ArgumentNeverUsed

  /** A template split by the regular expression: characters kept as they are, and placeholders. */
  datatype Piece = Literal(c: char) | Hole(name: string)

  predicate IsWord(c: char) {
    'A' <= c <= 'Z' || 'a' <= c <= 'z' || '0' <= c <= '9' || c == '_'
  }

  /** The word characters of a regular expression, by their codes: digits, capitals, the underscore, small letters. */
  lemma WordCharacters(c: char)
    ensures var code := c as int;
      IsWord(c) <==> 48 <= code <= 57 || 65 <= code <= 90 || code == 95 || 97 <= code <= 122
  {
  }

  function WordRun(s: string): (n: nat)
    ensures n <= |s|
    ensures forall i :: 0 <= i < n ==> IsWord(s[i])
    ensures n < |s| ==> !IsWord(s[n])
  {
    if s == [] || !IsWord(s[0]) then 0 else WordRun(s[1..]) + 1
  }

  /** The length of the placeholder that `s` begins with. */
  function PlaceholderLength(s: string): (r: Option<nat>)
    ensures r.Some? ==> 2 <= r.value <= |s|
  {
    if s == [] || s[0] != '{' then None
    else
      var w := WordRun(s[1..]);
      if w + 1 < |s| && s[w + 1] == '}' then Some(w + 2) else None
  }

  /** `PlaceholderLength` is the match of the regular expression: braces around word characters, and only one fits. */
  lemma PlaceholderIsMatch(s: string, n: nat)
    ensures PlaceholderLength(s) == Some(n)
       <==> 2 <= n <= |s| && s[0] == '{' && s[n - 1] == '}' && forall i :: 1 <= i < n - 1 ==> IsWord(s[i])
  {
    if 2 <= n <= |s| && s[0] == '{' && s[n - 1] == '}' && forall i :: 1 <= i < n - 1 ==> IsWord(s[i]) {
      assert forall i :: 0 <= i < n - 2 ==> s[1..][i] == s[i + 1];
      WordRunIs(s[1..], n - 2);
    }
  }

  lemma {:induction false} WordRunIs(s: string, n: nat)
    requires n < |s| && !IsWord(s[n]) && forall i :: 0 <= i < n ==> IsWord(s[i])
    ensures WordRun(s) == n
  {
    if n > 0 {
      WordRunIs(s[1..], n - 1);
    }
  }

  /** What the regular expression makes of the beginning of a text. */
  function FirstPiece(s: string): Piece
    requires s != []
  {
    match PlaceholderLength(s)
    case Some(n) => Hole(s[1..n - 1])
    case None => Literal(s[0])
  }

  function AfterFirstPiece(s: string): (rest: string)
    requires s != []
    ensures |rest| < |s|
  {
    match PlaceholderLength(s)
    case Some(n) => s[n..]
    case None => s[1..]
  }

  lemma Associative<T>(a: seq<T>, b: seq<T>, c: seq<T>)
    ensures a + b + c == a + (b + c)
  {
  }

  lemma FirstOfConcat<T>(a: seq<T>, b: seq<T>)
    requires a != []
    ensures a + b == [a[0]] + (a[1..] + b)
  {
  }

  lemma FirstAndRest<T>(a: seq<T>)
    requires a != []
    ensures [a[0]] + a[1..] == a
  {
  }

  function Scan(s: string): seq<Piece>
    decreases |s|
  {
    if s == [] then [] else [FirstPiece(s)] + Scan(AfterFirstPiece(s))
  }

  function Text(piece: Piece): string {
    match piece
    case Literal(c) => [c]
    case Hole(name) => "{" + name + "}"
  }

  function Flatten(pieces: seq<Piece>): string {
    if pieces == [] then [] else Text(pieces[0]) + Flatten(pieces[1..])
  }

  lemma FirstPieceText(s: string)
    requires s != []
    ensures Text(FirstPiece(s)) + AfterFirstPiece(s) == s
    ensures PlaceholderLength(s)
         == match FirstPiece(s) case Literal(_) => None case Hole(name) => Some(|name| + 2)
  {
    if PlaceholderLength(s).Some? {
      var n := PlaceholderLength(s).value;
      PlaceholderIsMatch(s, n);
      assert "{" + s[1..n - 1] + "}" == s[..n];
    }
  }

  /** The pieces put back together are the template. */
  lemma {:induction false} ScanRestoresTemplate(s: string)
    ensures Flatten(Scan(s)) == s
    decreases |s|
  {
    if s != [] {
      FirstPieceText(s);
      ScanRestoresTemplate(AfterFirstPiece(s));
      assert Scan(s)[1..] == Scan(AfterFirstPiece(s));
    }
  }

  /** Every piece is what the regular expression makes of the text at its place, so no placeholder is passed over. */
  lemma {:induction false} ScanIsLeftmost(s: string, k: nat)
    requires k < |Scan(s)|
    ensures PlaceholderLength(Flatten(Scan(s)[k..]))
         == match Scan(s)[k] case Literal(_) => None case Hole(name) => Some(|name| + 2)
  {
    var rest := ScanSuffix(s, k);
    ScanRestoresTemplate(rest);
    FirstPieceText(rest);
  }

  /** The pieces from any place on are the scan of some text. */
  lemma {:induction false} ScanSuffix(s: string, k: nat) returns (rest: string)
    requires k < |Scan(s)|
    ensures rest != [] && Scan(s)[k..] == Scan(rest) && Scan(s)[k] == FirstPiece(rest)
    decreases k
  {
    if k == 0 {
      rest := s;
    } else {
      rest := ScanSuffix(AfterFirstPiece(s), k - 1);
      DropAfterFirst(FirstPiece(s), Scan(AfterFirstPiece(s)), k);
    }
  }

  lemma DropAfterFirst(first: Piece, others: seq<Piece>, k: nat)
    requires 0 < k < |others| + 1
    ensures ([first] + others)[k..] == others[k - 1..] && ([first] + others)[k] == others[k - 1]
  {
  }

  function HoleCount(pieces: seq<Piece>): nat {
    if pieces == [] then 0 else (if pieces[0].Hole? then 1 else 0) + HoleCount(pieces[1..])
  }

  /** The path with one argument for each placeholder. */
  function Render(pieces: seq<Piece>, args: seq<nat>): string
    requires HoleCount(pieces) == |args|
  {
    if pieces == [] then []
    else if pieces[0].Hole? then Digits(args[0]) + Render(pieces[1..], args[1..])
    else [pieces[0].c] + Render(pieces[1..], args)
  }

  /** Substituting as long as there are arguments; what is left of them comes back too. */
  function Substitute(pieces: seq<Piece>, args: seq<nat>): Result<(string, seq<nat>), Error> {
    if pieces == [] then Ok(([], args))
    else if pieces[0].Literal? then Prepend([pieces[0].c], Substitute(pieces[1..], args))
    else if args == [] then Err(InsufficientArgument)
    else Prepend(Digits(args[0]), Substitute(pieces[1..], args[1..]))
  }

  function Prepend(s: string, r: Result<(string, seq<nat>), Error>): Result<(string, seq<nat>), Error> {
    match r
    case Ok((t, left)) => Ok((s + t, left))
    case Err(e) => Err(e)
  }

  lemma {:induction false} SubstituteOutcome(pieces: seq<Piece>, args: seq<nat>)
    ensures var h := HoleCount(pieces);
      Substitute(pieces, args) == if h > |args| then Err(InsufficientArgument)
                                  else Ok((Render(pieces, args[..h]), args[h..]))
  {
    if pieces != [] {
      if pieces[0].Literal? {
        SubstituteOutcome(pieces[1..], args);
      } else if args != [] {
        SubstituteOutcome(pieces[1..], args[1..]);
        var h := HoleCount(pieces);
        if h <= |args| {
          assert args[..h][1..] == args[1..][..h - 1] && args[h..] == args[1..][h - 1..];
        }
      }
    }
  }

  /** Succeeds exactly when there is one argument for each placeholder; the error says which way it fails. */
  method Derivef(formatPath: string, args: seq<uint32>) returns (r: Result<string, Error>)
    ensures var holes := HoleCount(Scan(formatPath));
      if holes > |args| then r == Err(InsufficientArgument)
      else if holes < |args| then r == Err(ArgumentNeverUsed)
      else r == Ok(Render(Scan(formatPath), args))
  {
    var path, rest, left: seq<nat> := "", formatPath, args;
    SubstituteOutcome(Scan(formatPath), args);
    PrependNothing(Substitute(Scan(formatPath), args));
    while rest != []
      invariant Substitute(Scan(formatPath), args) == Prepend(path, Substitute(Scan(rest), left))
      decreases |rest|
    {
      match PlaceholderLength(rest) {
        case Some(n) =>
          if left == [] {
            return Err(InsufficientArgument);
          }
          PrependTwice(path, Digits(left[0]), Substitute(Scan(rest[n..]), left[1..]));
          assert Scan(rest)[1..] == Scan(rest[n..]);
          path, left, rest := path + Digits(left[0]), left[1..], rest[n..];
        case None =>
          PrependTwice(path, [rest[0]], Substitute(Scan(rest[1..]), left));
          assert Scan(rest)[1..] == Scan(rest[1..]);
          path, rest := path + [rest[0]], rest[1..];
      }
    }
    assert path + [] == path;
    if left != [] {
      return Err(ArgumentNeverUsed);
    }
    assert args[..|args|] == args;
    r := Ok(path);
  }

  lemma PrependNothing(r: Result<(string, seq<nat>), Error>)
    ensures Prepend("", r) == r
  {
    if r.Ok? {
      assert "" + r.value.0 == r.value.0;
    }
  }

  lemma PrependTwice(a: string, b: string, r: Result<(string, seq<nat>), Error>)
    ensures Prepend(a, Prepend(b, r)) == Prepend(a + b, r)
  {
    if r.Ok? {
      assert a + (b + r.value.0) == (a + b) + r.value.0;
    }
  }

  // ----- Unambiguity

  /** Some character other than a digit stands between any two placeholders. */
  ghost predicate Readable(pieces: seq<Piece>) {
    forall i, j :: 0 <= i < j < |pieces| && pieces[i].Hole? && pieces[j].Hole? ==> Separated(pieces, i, j)
  }

  ghost predicate Separated(pieces: seq<Piece>, i: nat, j: nat)
    requires i < j < |pieces|
  {
    exists k :: i < k < j && pieces[k].Literal? && !IsDigit(pieces[k].c)
  }

  /** The number of digit characters a template begins with. */
  function LeadingDigits(pieces: seq<Piece>): (n: nat)
    ensures n <= |pieces|
    ensures forall i :: 0 <= i < n ==> pieces[i].Literal? && IsDigit(pieces[i].c)
    ensures n < |pieces| ==> pieces[n].Hole? || !IsDigit(pieces[n].c)
  {
    if pieces == [] || pieces[0].Hole? || !IsDigit(pieces[0].c) then 0 else LeadingDigits(pieces[1..]) + 1
  }

  /** Reading the arguments back from a path: strip the characters of the template, and read digits at a placeholder. */
  function Read(pieces: seq<Piece>, path: string): Option<seq<nat>>
    decreases |pieces|
  {
    if pieces == [] then if path == [] then Some([]) else None
    else if pieces[0].Literal? then
      if path != [] && path[0] == pieces[0].c then Read(pieces[1..], path[1..]) else None
    else
      var run, after := DigitRun(path), LeadingDigits(pieces[1..]);
      if run <= after then None
      else
        match Read(pieces[1..], path[run - after..])
        case None => None
        case Some(args) => assert AllDigits(path[..run]); Some([Value(path[..run - after])] + args)
  }

  lemma {:induction false} RunAfterHole(pieces: seq<Piece>, args: seq<nat>)
    requires HoleCount(pieces) == |args|
    requires LeadingDigits(pieces) < |pieces| ==> pieces[LeadingDigits(pieces)].Literal?
    ensures DigitRun(Render(pieces, args)) == LeadingDigits(pieces)
  {
    if pieces != [] && pieces[0].Literal? {
      if IsDigit(pieces[0].c) {
        RunAfterHole(pieces[1..], args);
        DigitRunOfPrefix([pieces[0].c], Render(pieces[1..], args));
      }
    }
  }

  lemma ReadableTail(pieces: seq<Piece>)
    requires Readable(pieces) && pieces != []
    ensures Readable(pieces[1..])
    ensures var rest, d := pieces[1..], LeadingDigits(pieces[1..]);
      pieces[0].Hole? && d < |rest| ==> rest[d].Literal?
  {
    var rest, d := pieces[1..], LeadingDigits(pieces[1..]);
    forall i, j | 0 <= i < j < |rest| && rest[i].Hole? && rest[j].Hole?
      ensures Separated(rest, i, j)
    {
      assert Separated(pieces, i + 1, j + 1);
      var k :| i + 1 < k < j + 1 && pieces[k].Literal? && !IsDigit(pieces[k].c);
      assert rest[k - 1] == pieces[k];
    }
  }

  /** At a placeholder the digits of the argument are told from the digits of the template that follow them. */
  lemma ReadHole(rest: seq<Piece>, n: nat, args: seq<nat>, path: string)
    requires HoleCount(rest) == |args| && path == Digits(n) + Render(rest, args)
    requires LeadingDigits(rest) < |rest| ==> rest[LeadingDigits(rest)].Literal?
    ensures var m := DigitRun(path) - LeadingDigits(rest);
      m == |Digits(n)| && path[..m] == Digits(n) && path[m..] == Render(rest, args)
  {
    DigitRunOfPrefix(Digits(n), Render(rest, args));
    RunAfterHole(rest, args);
  }

  lemma ReadLiteralStep(literal: Piece, rest: seq<Piece>, path: string)
    requires literal.Literal?
    ensures Read([literal] + rest, [literal.c] + path) == Read(rest, path)
  {
    assert ([literal] + rest)[1..] == rest && ([literal.c] + path)[1..] == path;
  }

  lemma ReadHoleStep(hole: Piece, rest: seq<Piece>, n: nat, args: seq<nat>, path: string)
    requires hole.Hole? && HoleCount(rest) == |args| && path == Digits(n) + Render(rest, args)
    requires LeadingDigits(rest) < |rest| ==> rest[LeadingDigits(rest)].Literal?
    requires Read(rest, Render(rest, args)) == Some(args)
    ensures Read([hole] + rest, path) == Some([n] + args)
  {
    ReadHole(rest, n, args, path);
    ValueOfDigits(n);
    assert ([hole] + rest)[1..] == rest;
  }

  /** A readable template gives its arguments back. */
  lemma {:induction false} ReadBack(pieces: seq<Piece>, args: seq<nat>)
    requires Readable(pieces) && HoleCount(pieces) == |args|
    ensures Read(pieces, Render(pieces, args)) == Some(args)
    decreases |pieces|
  {
    if pieces != [] {
      ReadableTail(pieces);
      FirstAndRest(pieces);
      if pieces[0].Literal? {
        ReadBack(pieces[1..], args);
        ReadLiteralStep(pieces[0], pieces[1..], Render(pieces[1..], args));
      } else {
        ReadBack(pieces[1..], args[1..]);
        ReadHoleStep(pieces[0], pieces[1..], args[0], args[1..], Render(pieces, args));
        FirstAndRest(args);
      }
    }
  }

  ghost predicate Unambiguous(pieces: seq<Piece>) {
    forall a: seq<uint32>, b: seq<uint32> {:trigger SamePath(pieces, a, b)} :: SamePath(pieces, a, b) ==> a == b
  }

  ghost predicate SamePath(pieces: seq<Piece>, a: seq<uint32>, b: seq<uint32>) {
    |a| == |b| == HoleCount(pieces) && Render(pieces, a) == Render(pieces, b)
  }

  lemma ReadableIsUnambiguous(pieces: seq<Piece>)
    requires Readable(pieces)
    ensures Unambiguous(pieces)
  {
    forall a: seq<uint32>, b: seq<uint32> | SamePath(pieces, a, b)
      ensures a == b
    {
      ReadBack(pieces, a);
      ReadBack(pieces, b);
    }
  }

  /** Only digit characters stand between the two placeholders. */
  ghost predicate DigitsBetween(pieces: seq<Piece>, i: nat, j: nat) {
    && i < j < |pieces| && pieces[i].Hole? && pieces[j].Hole?
    && forall k :: i < k < j ==> pieces[k].Literal? && IsDigit(pieces[k].c)
  }

  lemma {:induction false} AdjacentHoles(pieces: seq<Piece>, i: nat, j: nat) returns (k: nat)
    requires i < j < |pieces| && pieces[i].Hole? && pieces[j].Hole? && !Separated(pieces, i, j)
    ensures DigitsBetween(pieces, i, k)
    decreases j
  {
    if m :| i < m < j && pieces[m].Hole? {
      k := AdjacentHoles(pieces, i, m);
    } else {
      k := j;
    }
  }

  lemma {:induction false} RenderConcat(p: seq<Piece>, q: seq<Piece>, a: seq<nat>, b: seq<nat>)
    requires HoleCount(p) == |a| && HoleCount(q) == |b|
    ensures HoleCount(p + q) == |a + b| && Render(p + q, a + b) == Render(p, a) + Render(q, b)
  {
    if p == [] {
      assert p + q == q && a + b == b && Render(p, a) + Render(q, b) == Render(q, b);
    } else if p[0].Hole? {
      RenderConcat(p[1..], q, a[1..], b);
      RenderFirstHole(p[0], p[1..] + q, a[0], a[1..] + b);
      FirstOfConcat(p, q);
      FirstOfConcat(a, b);
      Associative(Digits(a[0]), Render(p[1..], a[1..]), Render(q, b));
    } else {
      RenderConcat(p[1..], q, a, b);
      RenderFirstLiteral(p[0], p[1..] + q, a + b);
      FirstOfConcat(p, q);
      Associative([p[0].c], Render(p[1..], a), Render(q, b));
    }
  }

  lemma RenderFirstHole(hole: Piece, rest: seq<Piece>, n: nat, args: seq<nat>)
    requires hole.Hole? && HoleCount(rest) == |args|
    ensures HoleCount([hole] + rest) == |args| + 1
    ensures Render([hole] + rest, [n] + args) == Digits(n) + Render(rest, args)
  {
    assert ([hole] + rest)[1..] == rest && ([n] + args)[1..] == args;
  }

  lemma RenderFirstLiteral(literal: Piece, rest: seq<Piece>, args: seq<nat>)
    requires literal.Literal? && HoleCount(rest) == |args|
    ensures HoleCount([literal] + rest) == |args| && Render([literal] + rest, args) == [literal.c] + Render(rest, args)
  {
    assert ([literal] + rest)[1..] == rest;
  }

  lemma {:induction false} RenderDigits(pieces: seq<Piece>)
    requires forall k :: 0 <= k < |pieces| ==> pieces[k].Literal? && IsDigit(pieces[k].c)
    ensures HoleCount(pieces) == 0 && |Render(pieces, [])| == |pieces| && AllDigits(Render(pieces, []))
  {
    if pieces != [] {
      RenderDigits(pieces[1..]);
    }
  }

  lemma RenderHole(piece: Piece, n: nat)
    requires piece.Hole?
    ensures HoleCount([piece]) == 1 && Render([piece], [n]) == Digits(n)
  {
    assert Render([piece], [n]) == Digits(n) + [];
  }

  /** Two placeholders with digits between them, filled in with `x` and `y`. */
  lemma RenderMiddle(h1: Piece, digits: seq<Piece>, h2: Piece, x: nat, y: nat)
    requires h1.Hole? && h2.Hole? && HoleCount(digits) == 0
    ensures HoleCount([h1] + digits + [h2]) == 2
    ensures Render([h1] + digits + [h2], [x, y]) == Digits(x) + Render(digits, []) + Digits(y)
  {
    RenderHole(h1, x);
    RenderHole(h2, y);
    RenderConcat([h1], digits, [x], []);
    assert [x] + [] == [x];
    RenderConcat([h1] + digits, [h2], [x], [y]);
    assert [x] + [y] == [x, y];
  }

  function Zeros(n: nat): seq<uint32> {
    seq(n, _ => 0)
  }

  /** The number whose numeral is `1`, the given digits, and `1` again. */
  lemma Wrapped(d: string) returns (v: uint32)
    requires AllDigits(d) && |d| <= 8
    ensures Digits(v) == "1" + d + "1" && v != 1
  {
    var front := "1" + d;
    var s := front + "1";
    assert AllDigits(front) && AllDigits(s) && s[0] == '1' && s[..|s| - 1] == front;
    DigitsOfValue(s);
    ValueOfOneAnd(d);
    ValueBound(d);
    Pow10Grows(|d|, 8);
    assert Pow10(8) == 100_000_000;
    v := Value(s);
    assert |Digits(1)| == 1;
  }

  /** One and the same text, read as `1` and a longer number or as a longer number and `1`. */
  lemma SameText(d: string, v: nat)
    requires Digits(v) == "1" + d + "1"
    ensures Digits(1) + d + Digits(v) == Digits(v) + d + Digits(1)
  {
    assert Digits(1) == "1";
    assert "1" + d + ("1" + d + "1") == ("1" + d + "1") + d + "1";
  }

  lemma SplitAround(pieces: seq<Piece>, i: nat, j: nat)
    requires i < j < |pieces|
    ensures pieces == pieces[..i] + ([pieces[i]] + pieces[i + 1..j] + [pieces[j]]) + pieces[j + 1..]
  {
  }

  /** With at most eight digits and nothing else between two placeholders, two argument lists make the same path. */
  lemma DigitsBetweenIsAmbiguous(pieces: seq<Piece>, i: nat, j: nat)
    requires DigitsBetween(pieces, i, j) && j - i - 1 <= 8
    ensures !Unambiguous(pieces)
  {
    var before, digits, after := pieces[..i], pieces[i + 1..j], pieces[j + 1..];
    SplitAround(pieces, i, j);
    RenderDigits(digits);
    var v := Wrapped(Render(digits, []));
    SameText(Render(digits, []), v);
    RenderMiddle(pieces[i], digits, pieces[j], 1, v);
    RenderMiddle(pieces[i], digits, pieces[j], v, 1);
    SwapInside(before, [pieces[i]] + digits + [pieces[j]], after, 1, v);
  }

  lemma SwapInside(before: seq<Piece>, middle: seq<Piece>, after: seq<Piece>, x: uint32, y: uint32)
    requires HoleCount(middle) == 2 && x != y && Render(middle, [x, y]) == Render(middle, [y, x])
    ensures !Unambiguous(before + middle + after)
  {
    var zs, ze := Zeros(HoleCount(before)), Zeros(HoleCount(after));
    var a: seq<uint32>, b: seq<uint32> := zs + [x, y] + ze, zs + [y, x] + ze;
    RenderAround(before, middle, after, zs, [x, y], ze);
    RenderAround(before, middle, after, zs, [y, x], ze);
    DifferentInside(zs, x, y, ze);
    assert SamePath(before + middle + after, a, b);
  }

  lemma DifferentInside(before: seq<nat>, x: nat, y: nat, after: seq<nat>)
    requires x != y
    ensures before + [x, y] + after != before + [y, x] + after
  {
    assert (before + [x, y] + after)[|before|] == x && (before + [y, x] + after)[|before|] == y;
  }

  lemma RenderAround(p: seq<Piece>, q: seq<Piece>, r: seq<Piece>, a: seq<nat>, b: seq<nat>, c: seq<nat>)
    requires HoleCount(p) == |a| && HoleCount(q) == |b| && HoleCount(r) == |c|
    ensures HoleCount(p + q + r) == |a + b + c|
    ensures Render(p + q + r, a + b + c) == Render(p, a) + Render(q, b) + Render(r, c)
  {
    RenderConcat(p, q, a, b);
    RenderConcat(p + q, r, a + b, c);
  }

  /** Where only digits stand between two placeholders there are at most eight of them. */
  ghost predicate ShortSeparators(pieces: seq<Piece>) {
    forall i: nat, j: nat {:trigger DigitsBetween(pieces, i, j)} :: DigitsBetween(pieces, i, j) ==> j - i - 1 <= 8
  }

  /** Among templates with short separators, exactly the readable ones give different paths for different arguments. */
  lemma UnambiguousExactlyWhenReadable(pieces: seq<Piece>)
    requires ShortSeparators(pieces)
    ensures Unambiguous(pieces) <==> Readable(pieces)
  {
    if Readable(pieces) {
      ReadableIsUnambiguous(pieces);
    } else {
      var i, j :| 0 <= i < j < |pieces| && pieces[i].Hole? && pieces[j].Hole? && !Separated(pieces, i, j);
      var k := AdjacentHoles(pieces, i, j);
      DigitsBetweenIsAmbiguous(pieces, i, k);
    }
  }

  // Nine digits can tell two placeholders apart, so the bound on the separators cannot be raised.

  /** A zero, and no zero after it. */
  predicate IsMarker(d: string) {
    AllDigits(d) && |d| >= 9 && d[0] == '0' && forall i :: 1 <= i < |d| ==> d[i] != '0'
  }

  /** One string at two places of a text: at the distance of the two it has the character that it begins with. */
  lemma Overlap(d: string, a: string, b: string, a': string, b': string)
    requires a + d + b == a' + d + b' && |a| < |a'| && d != []
    ensures var t := |a'| - |a|;
      && (t < |d| ==> d[t] == d[0])
      && (t == |d| ==> |b| > |b'| && b[0] == d[0])
  {
    var text, t := a + d + b, |a'| - |a|;
    assert (a' + d + b')[|a'|] == d[0];
    if t < |d| {
      assert text[|a| + t] == d[t];
    } else if t == |d| {
      assert text[|a| + |d|] == b[0];
    }
  }

  lemma MarkerPosition(d: string, x: uint32, y: uint32, x': uint32, y': uint32)
    requires IsMarker(d) && Digits(x) + d + Digits(y) == Digits(x') + d + Digits(y')
    ensures |Digits(x)| >= |Digits(x')|
  {
    assert Pow10(10) == 10_000_000_000;
    DigitsBound(x', 10);
    NoLeadingZero(y);
    if |Digits(x)| < |Digits(x')| {
      Overlap(d, Digits(x), Digits(y), Digits(x'), Digits(y'));
    }
  }

  lemma SameSplit(a: string, d: string, b: string, a': string, b': string)
    requires a + d + b == a' + d + b' && |a| == |a'|
    ensures a == a' && b == b'
  {
    assert (a + d + b)[..|a|] == a && (a' + d + b')[..|a|] == a';
    assert (a + d + b)[|a| + |d|..] == b && (a' + d + b')[|a| + |d|..] == b';
  }

  lemma MarkerTellsApart(d: string, x: uint32, y: uint32, x': uint32, y': uint32)
    requires IsMarker(d) && Digits(x) + d + Digits(y) == Digits(x') + d + Digits(y')
    ensures x == x' && y == y'
  {
    MarkerPosition(d, x, y, x', y');
    MarkerPosition(d, x', y', x, y);
    SameSplit(Digits(x), d, Digits(y), Digits(x'), Digits(y'));
    ValueOfDigits(x);
    ValueOfDigits(x');
    ValueOfDigits(y);
    ValueOfDigits(y');
  }

  lemma {:induction false} RenderLiterals(s: string)
    ensures HoleCount(Literals(s)) == 0 && Render(Literals(s), []) == s
  {
    if s != [] {
      RenderLiterals(s[1..]);
      LiteralsOneMore(s[0], s[1..]);
      FirstAndRest(s);
    }
  }

  /** Templates whose separator is a marker are unambiguous without being readable. */
  lemma MarkerSeparates(h1: Piece, d: string, h2: Piece)
    requires h1.Hole? && h2.Hole? && IsMarker(d)
    ensures var pieces := [h1] + Literals(d) + [h2]; !Readable(pieces) && Unambiguous(pieces)
  {
    var pieces := [h1] + Literals(d) + [h2];
    RenderLiterals(d);
    assert !Separated(pieces, 0, |d| + 1);
    assert pieces[|d| + 1] == h2;
    forall a: seq<uint32>, b: seq<uint32> | SamePath(pieces, a, b)
      ensures a == b
    {
      RenderMiddle(h1, Literals(d), h2, 0, 0);
      assert a == [a[0], a[1]] && b == [b[0], b[1]];
      RenderMiddle(h1, Literals(d), h2, a[0], a[1]);
      RenderMiddle(h1, Literals(d), h2, b[0], b[1]);
      MarkerTellsApart(d, a[0], a[1], b[0], b[1]);
    }
  }

  // ----- The templates of the networks

  /** `bip44Path` of a network, with its coin type. */
  function Bip44Path(coinType: string): string {
    "m/44'/" + coinType + "'/" + ("{ACCOUNT}" + ("'/0/" + ("{INDEX}" + "")))
  }

  function Literals(s: string): seq<Piece> {
    seq(|s|, i requires 0 <= i < |s| => Literal(s[i]))
  }

  lemma ScanLiteral(c: char, rest: string)
    requires c != '{'
    ensures Scan([c] + rest) == [Literal(c)] + Scan(rest)
  {
    var s := [c] + rest;
    assert s[0] == c && s[1..] == rest;
    assert PlaceholderLength(s) == None;
    assert FirstPiece(s) == Literal(c) && AfterFirstPiece(s) == rest;
  }

  lemma ScanOneMore(c: char, s: string, rest: string)
    requires c != '{' && Scan(s + rest) == Literals(s) + Scan(rest)
    ensures Scan([c] + s + rest) == Literals([c] + s) + Scan(rest)
  {
    ScanLiteral(c, s + rest);
    Associative([c], s, rest);
    LiteralsOneMore(c, s);
    Associative([Literal(c)], Literals(s), Scan(rest));
  }

  lemma LiteralsOneMore(c: char, s: string)
    ensures Literals([c] + s) == [Literal(c)] + Literals(s)
  {
  }

  lemma ScanLiterals(s: string, rest: string)
    requires forall i :: 0 <= i < |s| ==> s[i] != '{'
    ensures Scan(s + rest) == Literals(s) + Scan(rest)
  {
    ScanLiteralsFrom(s, 0, rest);
    assert s[0..] == s;
  }

  lemma {:induction false} ScanLiteralsFrom(s: string, k: nat, rest: string)
    requires k <= |s| && forall i :: 0 <= i < |s| ==> s[i] != '{'
    ensures Scan(s[k..] + rest) == Literals(s[k..]) + Scan(rest)
    decreases |s| - k
  {
    if k == |s| {
      NoLiterals(s[k..], rest);
    } else {
      ScanLiteralsFrom(s, k + 1, rest);
      ScanOneMore(s[k], s[k + 1..], rest);
      DropOne(s, k);
    }
  }

  lemma NoLiterals(s: string, rest: string)
    requires s == []
    ensures Scan(s + rest) == Literals(s) + Scan(rest)
  {
    assert s + rest == rest;
  }

  lemma DropOne(s: string, k: nat)
    requires k < |s|
    ensures [s[k]] + s[k + 1..] == s[k..]
  {
  }

  lemma ScanHole(name: string, rest: string)
    requires forall i :: 0 <= i < |name| ==> IsWord(name[i])
    ensures Scan("{" + name + "}" + rest) == [Hole(name)] + Scan(rest)
  {
    var s, n := "{" + name + "}" + rest, |name| + 2;
    PlaceholderIsMatch(s, n);
    assert s[1..n - 1] == name && s[n..] == rest;
    assert FirstPiece(s) == Hole(name) && AfterFirstPiece(s) == rest;
  }

  lemma ScanTwoHoles(start: string, name1: string, middle: string, name2: string)
    requires forall i :: 0 <= i < |start| ==> start[i] != '{'
    requires forall i :: 0 <= i < |middle| ==> middle[i] != '{'
    requires forall i :: 0 <= i < |name1| ==> IsWord(name1[i])
    requires forall i :: 0 <= i < |name2| ==> IsWord(name2[i])
    ensures Scan(start + (("{" + name1 + "}") + (middle + (("{" + name2 + "}") + ""))))
         == Literals(start) + ([Hole(name1)] + (Literals(middle) + [Hole(name2)]))
  {
    var last := ("{" + name2 + "}") + "";
    ScanHole(name2, "");
    assert Scan(last) == [Hole(name2)];
    ScanLiterals(middle, last);
    ScanHole(name1, middle + last);
    ScanLiterals(start, ("{" + name1 + "}") + (middle + last));
  }

  lemma {:induction false} HoleCountConcat(p: seq<Piece>, q: seq<Piece>)
    ensures HoleCount(p + q) == HoleCount(p) + HoleCount(q)
  {
    if p == [] {
      assert p + q == q;
    } else {
      HoleCountConcat(p[1..], q);
      assert (p + q)[1..] == p[1..] + q;
    }
  }

  lemma TwoHolesAreReadable(l: seq<Piece>, h1: Piece, m: seq<Piece>, h2: Piece)
    requires (forall i :: 0 <= i < |l| ==> l[i].Literal?) && forall i :: 0 <= i < |m| ==> m[i].Literal?
    requires h1.Hole? && h2.Hole? && m != [] && !IsDigit(m[0].c)
    ensures HoleCount(l + ([h1] + (m + [h2]))) == 2 && Readable(l + ([h1] + (m + [h2])))
  {
    LiteralsHaveNoHole(l);
    LiteralsHaveNoHole(m);
    HoleCountConcat(m, [h2]);
    HoleCountConcat([h1], m + [h2]);
    HoleCountConcat(l, [h1] + (m + [h2]));
    var pieces := l + ([h1] + (m + [h2]));
    assert pieces[|l| + 1] == m[0];
    forall i, j | 0 <= i < j < |pieces| && pieces[i].Hole? && pieces[j].Hole?
      ensures Separated(pieces, i, j)
    {
      assert i == |l| && j == |l| + |m| + 1;
    }
  }

  /** The templates of the networks, letter for letter. */
  lemma Bip44PathText()
    ensures Bip44Path("394") == "m/44'/394'/{ACCOUNT}'/0/{INDEX}" && Bip44Path("1") == "m/44'/1'/{ACCOUNT}'/0/{INDEX}"
  {
  }

  /** The path that account and index make. */
  lemma Bip44PathRendered(coinType: string, account: uint32, index: uint32)
    requires forall i :: 0 <= i < |coinType| ==> coinType[i] != '{'
    ensures var pieces := Scan(Bip44Path(coinType));
      && HoleCount(pieces) == 2
      && Render(pieces, [account, index])
         == ("m/44'/" + coinType + "'/") + Digits(account) + "'/0/" + Digits(index)
  {
    var start, middle := "m/44'/" + coinType + "'/", "'/0/";
    ScanBip44Path(coinType);
    RenderTwoHoles(start, Hole("ACCOUNT"), middle, Hole("INDEX"), account, index);
  }

  lemma ScanBip44Path(coinType: string)
    requires forall i :: 0 <= i < |coinType| ==> coinType[i] != '{'
    ensures Scan(Bip44Path(coinType))
         == Literals("m/44'/" + coinType + "'/") + ([Hole("ACCOUNT")] + (Literals("'/0/") + [Hole("INDEX")]))
  {
    ScanTwoHoles("m/44'/" + coinType + "'/", "ACCOUNT", "'/0/", "INDEX");
    assert "{" + "ACCOUNT" + "}" == "{ACCOUNT}" && "{" + "INDEX" + "}" == "{INDEX}";
  }

  lemma RenderTwoHoles(start: string, h1: Piece, middle: string, h2: Piece, x: nat, y: nat)
    requires h1.Hole? && h2.Hole?
    ensures var pieces := Literals(start) + ([h1] + (Literals(middle) + [h2]));
      HoleCount(pieces) == 2 && Render(pieces, [x, y]) == start + Digits(x) + middle + Digits(y)
  {
    RenderLiterals(start);
    RenderLiterals(middle);
    RenderMiddle(h1, Literals(middle), h2, x, y);
    Associative([h1], Literals(middle), [h2]);
    RenderConcat(Literals(start), [h1] + (Literals(middle) + [h2]), [], [x, y]);
    assert [] + [x, y] == [x, y];
    Associative(start, Digits(x) + middle, Digits(y));
    Associative(start, Digits(x), middle);
  }

  /** The account and the index can be told from a derivation path of any network. */
  lemma Bip44PathIsUnambiguous(coinType: string)
    requires forall i :: 0 <= i < |coinType| ==> coinType[i] != '{'
    ensures HoleCount(Scan(Bip44Path(coinType))) == 2 && Unambiguous(Scan(Bip44Path(coinType)))
  {
    var start, middle := "m/44'/" + coinType + "'/", "'/0/";
    ScanBip44Path(coinType);
    assert middle[0] == '\'';
    TwoHolesAreReadable(Literals(start), Hole("ACCOUNT"), Literals(middle), Hole("INDEX"));
    ReadableIsUnambiguous(Scan(Bip44Path(coinType)));
  }

  lemma {:induction false} LiteralsHaveNoHole(pieces: seq<Piece>)
    requires forall i :: 0 <= i < |pieces| ==> pieces[i].Literal?
    ensures HoleCount(pieces) == 0
  {
    if pieces != [] {
      LiteralsHaveNoHole(pieces[1..]);
    }
  }
}
