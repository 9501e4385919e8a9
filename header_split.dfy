/**
 * JavaScript's `String.prototype.split` with a one-character separator, and
 * the `Bearer <token>` header form accepted by middlewares/auth.js.
 */
module HeaderSplit {

  /**
   * `s.split(sep)` for a one-character string `sep`: the maximal pieces of `s`
   * between occurrences of `sep`. Adjacent separators give an empty piece,
   * and the empty string splits into one empty piece.
   */
  function Split(s: string, sep: char): (parts: seq<string>)
    ensures |parts| >= 1
    ensures forall p :: p in parts ==> sep !in p
    ensures Join(parts, sep) == s
    decreases |s|
  {
    if |s| == 0 then [""]
    else
      var rest := Split(s[1..], sep);
      if s[0] == sep then
        [""] + rest
      else
        assert s == [s[0]] + s[1..];
        [[s[0]] + rest[0]] + rest[1..]
  }

  /** `parts.join(sep)`: the inverse of Split. */
  function Join(parts: seq<string>, sep: char): string
    requires |parts| >= 1
  {
    if |parts| == 1 then parts[0] else parts[0] + [sep] + Join(parts[1..], sep)
  }

  lemma {:induction false} SplitWithoutSeparator(s: string, sep: char)
    requires sep !in s
    ensures Split(s, sep) == [s]
    decreases |s|
  {
    if |s| > 0 {
      SplitWithoutSeparator(s[1..], sep);
      assert [s[0]] + s[1..] == s;
    }
  }

  lemma {:induction false} SplitAtFirstSeparator(x: string, sep: char, rest: string)
    requires sep !in x
    ensures Split(x + [sep] + rest, sep) == [x] + Split(rest, sep)
    decreases |x|
  {
    var s := x + [sep] + rest;
    if |x| == 0 {
      assert s[1..] == rest;
    } else {
      assert s[1..] == x[1..] + [sep] + rest;
      SplitAtFirstSeparator(x[1..], sep, rest);
      assert [x[0]] + x[1..] == x;
    }
  }

  /** Splitting a join of separator-free pieces gives the pieces back. */
  lemma {:induction false} SplitJoin(parts: seq<string>, sep: char)
    requires |parts| >= 1
    requires forall p :: p in parts ==> sep !in p
    ensures Split(Join(parts, sep), sep) == parts
    decreases |parts|
  {
    if |parts| == 1 {
      SplitWithoutSeparator(parts[0], sep);
    } else {
      assert parts[0] in parts;
      SplitAtFirstSeparator(parts[0], sep, Join(parts[1..], sep));
      assert forall p :: p in parts[1..] ==> p in parts;
      SplitJoin(parts[1..], sep);
      assert [parts[0]] + parts[1..] == parts;
    }
  }

  const Scheme: string := "Bearer"

  /** The header is the scheme, one space, and a token containing no space. */
  predicate IsBearerForm(h: string)
  {
    |h| >= 7 && h[..7] == Scheme + " " && ' ' !in h[7..]
  }

  /** The token part of a header in bearer form. */
  function BearerToken(h: string): string
    requires IsBearerForm(h)
  {
    h[7..]
  }

  /**
   * The test `parts.length === 2 && parts[0] === 'Bearer'` on `h.split(' ')`
   * holds exactly for headers in bearer form, and then `parts[1]` is the
   * whole remainder after "Bearer ".
   */
  lemma BearerSplit(h: string)
    ensures (|Split(h, ' ')| == 2 && Split(h, ' ')[0] == Scheme) <==> IsBearerForm(h)
    ensures IsBearerForm(h) ==> Split(h, ' ') == [Scheme, BearerToken(h)]
  {
    var parts := Split(h, ' ');
    if |parts| == 2 && parts[0] == Scheme {
      assert parts[1] in parts;
      assert parts[1..] == [parts[1]];
      assert h == Join(parts, ' ') == Scheme + " " + parts[1];
      assert h[..7] == Scheme + " " && h[7..] == parts[1];
    }
    if IsBearerForm(h) {
      var ps := [Scheme, h[7..]];
      assert h == h[..7] + h[7..];
      assert Join(ps, ' ') == h;
      assert forall p :: p in ps ==> ' ' !in p;
      SplitJoin(ps, ' ');
    }
  }
}
