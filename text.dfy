/** String helpers: decimal numerals (template literals, `format!`), ASCII
    lower-casing, and `split`/`join` on path separators. */
module Text {
  import opened Seqs

  predicate IsDigit(c: char) { '0' <= c <= '9' }

  function DigitChar(d: nat): (c: char)
    requires d < 10
    ensures IsDigit(c) && c as int - '0' as int == d
  {
    (d + '0' as int) as char
  }

  /** The decimal numeral of `n`, as `n.to_string()` and `${n}` print it. */
  function DecimalString(n: nat): (s: string)
    ensures |s| >= 1 && forall i :: 0 <= i < |s| ==> IsDigit(s[i])
    ensures (s[0] == '0') <==> n == 0
  {
    if n < 10 then [DigitChar(n)] else DecimalString(n / 10) + [DigitChar(n % 10)]
  }

  /** The number a string of digits denotes. */
  function DecimalValue(s: string): nat
    requires forall i :: 0 <= i < |s| ==> IsDigit(s[i])
  {
    if s == [] then 0
    else
      assert IsDigit(s[|s| - 1]);
      10 * DecimalValue(s[..|s| - 1]) + (s[|s| - 1] as int - '0' as int)
  }

  /** Printing a number and reading it back gives the number. */
  lemma {:induction false} DecimalRoundTrip(n: nat)
    ensures DecimalValue(DecimalString(n)) == n
  {
    if n >= 10 {
      DecimalRoundTrip(n / 10);
      var s := DecimalString(n);
      assert s[..|s| - 1] == DecimalString(n / 10);
    }
  }

  /** Different numbers print differently: the counters in generated names never collide. */
  lemma DecimalInjective(m: nat, n: nat)
    requires DecimalString(m) == DecimalString(n)
    ensures m == n
  {
    DecimalRoundTrip(m);
    DecimalRoundTrip(n);
  }

  function LowerChar(c: char): (l: char)
    ensures 'A' <= c <= 'Z' ==> l as int == c as int + 32
    ensures !('A' <= c <= 'Z') ==> l == c
  {
    if 'A' <= c <= 'Z' then (c as int + 32) as char else c
  }

  /** Lower-cases the ASCII letters of `s` and leaves every other character alone. */
  function LowerAscii(s: string): (l: string)
    ensures |l| == |s| && forall i :: 0 <= i < |s| ==> l[i] == LowerChar(s[i])
  {
    seq(|s|, i requires 0 <= i < |s| => LowerChar(s[i]))
  }

  predicate IsPathSeparator(c: char) { c == '/' || c == '\\' }

  /** `s.split(/[/\\]/)`: the pieces between separators; there is always one
      more piece than there are separators, and none contains a separator. */
  function SplitPath(s: string): (parts: seq<string>)
    ensures |parts| >= 1
    ensures forall p, i :: p in parts && 0 <= i < |p| ==> !IsPathSeparator(p[i])
  {
    if s == [] then [""]
    else
      var rest := SplitPath(s[1..]);
      if IsPathSeparator(s[0]) then [""] + rest
      else [[s[0]] + rest[0]] + rest[1..]
  }

  /** `parts.join(sep)`. */
  function Join(parts: seq<string>, sep: string): string {
    if parts == [] then ""
    else if |parts| == 1 then parts[0]
    else parts[0] + sep + Join(parts[1..], sep)
  }

  /** Joining separator-free pieces with "/" and splitting again gives back the pieces. */
  lemma {:induction false} SplitJoin(parts: seq<string>)
    requires |parts| >= 1
    requires forall p, i :: p in parts && 0 <= i < |p| ==> !IsPathSeparator(p[i])
    ensures SplitPath(Join(parts, "/")) == parts
  {
    if |parts| == 1 {
      SplitPiece(parts[0], []);
    } else {
      SplitJoin(parts[1..]);
      SplitPiece(parts[0], parts[1..]);
      assert Join(parts, "/") == parts[0] + ("/" + Join(parts[1..], "/"));
    }
  }

  /** A separator-free piece in front of `"/" + Join(rest)` (or of nothing) becomes the first part. */
  lemma SplitPiece(p: string, rest: seq<string>)
    requires forall i :: 0 <= i < |p| ==> !IsPathSeparator(p[i])
    requires rest != [] ==> SplitPath(Join(rest, "/")) == rest
    ensures rest == [] ==> SplitPath(p) == [p]
    ensures rest != [] ==> SplitPath(p + ("/" + Join(rest, "/"))) == [p] + rest
  {
    assert p + "" == p;
    if rest == [] {
      SplitPathPrefix(p, "");
    } else {
      var j := Join(rest, "/");
      SplitPathPrefix(p, "/" + j);
      SplitPathCons('/', j);
    }
  }

  /** A separator-free prefix joins the first piece of what follows it. */
  lemma {:induction false} SplitPathPrefix(p: string, t: string)
    requires forall i :: 0 <= i < |p| ==> !IsPathSeparator(p[i])
    ensures SplitPath(p + t) == [p + SplitPath(t)[0]] + SplitPath(t)[1..]
  {
    var st := SplitPath(t);
    if p == [] {
      assert p + t == t;
      assert p + st[0] == st[0];
      assert st == [st[0]] + st[1..];
    } else {
      SplitPathPrefix(p[1..], t);
      ConsSplit(p, t);
      SplitPathCons(p[0], p[1..] + t);
      ConsSplit(p, st[0]);
    }
  }

  /** Splitting a string one character longer: a separator starts a new
      piece, any other character joins the first piece. */
  lemma SplitPathCons(c: char, t: string)
    ensures IsPathSeparator(c) ==> SplitPath([c] + t) == [""] + SplitPath(t)
    ensures !IsPathSeparator(c) ==> SplitPath([c] + t) == [[c] + SplitPath(t)[0]] + SplitPath(t)[1..]
  {
    assert ([c] + t)[0] == c && ([c] + t)[1..] == t;
  }
}
