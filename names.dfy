/** File-name arithmetic used by the organizer: `os.path.splitext`,
    `os.path.basename`, `str.lower` and the decimal rendering of the
    rename counter. */
module Names {

  /** Index of the last occurrence of `c` in `s`, or -1 (Python's `rfind`). */
  function LastIndexOf(s: string, c: char): (r: int)
    ensures -1 <= r < |s|
    ensures r >= 0 ==> s[r] == c
    ensures forall j :: r < j < |s| ==> s[j] != c
  {
    if s == [] then -1
    else if s[|s| - 1] == c then |s| - 1
    else LastIndexOf(s[..|s| - 1], c)
  }

  /** Some character of `p[lo..hi]` is not a dot. */
  predicate HasNonDot(p: string, lo: int, hi: int)
    requires 0 <= lo <= hi <= |p|
  {
    exists j :: lo <= j < hi && p[j] != '.'
  }

  /** `os.path.splitext` on POSIX: the extension starts at the last dot of
      the last path component, and only when some character before that dot
      in the component is not itself a dot (so `.bashrc` and `..x` have no
      extension). */
  function SplitExt(p: string): (r: (string, string))
    ensures r.0 + r.1 == p
    ensures r.1 == [] || (r.1[0] == '.' && '.' !in r.1[1..] && '/' !in r.1)
  {
    var sep := LastIndexOf(p, '/');
    var dot := LastIndexOf(p, '.');
    if dot > sep && HasNonDot(p, sep + 1, dot) then (p[..dot], p[dot..]) else (p, [])
  }

  /** For a plain file name, there is an extension exactly when the name has a
      dot with some non-dot character before it. */
  lemma SplitExtHasExtension(p: string)
    requires '/' !in p
    ensures SplitExt(p).1 != [] <==>
      exists i, j :: 0 <= i < j < |p| && p[i] != '.' && p[j] == '.'
  {
    var dot := LastIndexOf(p, '.');
    assert LastIndexOf(p, '/') == -1;
    if i, j :| 0 <= i < j < |p| && p[i] != '.' && p[j] == '.' {
      assert j <= dot;
      assert HasNonDot(p, 0, dot) by { assert 0 <= i < dot && p[i] != '.'; }
    }
    if SplitExt(p).1 != [] {
      var i :| 0 <= i < dot && p[i] != '.';
      assert 0 <= i < dot < |p| && p[i] != '.' && p[dot] == '.';
    }
  }

  /** The split of a name built from a base and an extension: the base must
      not end in only dots, the extension is a dot followed by dot-free text. */
  lemma SplitExtOf(base: string, ext: string)
    requires '/' !in base && '/' !in ext
    requires |ext| >= 1 && ext[0] == '.' && '.' !in ext[1..]
    requires exists j :: 0 <= j < |base| && base[j] != '.'
    ensures SplitExt(base + ext) == (base, ext)
  {
    var p := base + ext;
    forall j | |base| < j < |p| ensures p[j] != '.' {
      assert p[j] == ext[1..][j - |base| - 1];
    }
    assert p[|base|] == ext[0];
    assert LastIndexOf(p, '.') == |base|;
    forall j | 0 <= j < |p| ensures p[j] != '/' {
      if j < |base| { assert p[j] == base[j]; } else { assert p[j] == ext[j - |base|]; }
    }
    assert LastIndexOf(p, '/') == -1;
    var j :| 0 <= j < |base| && base[j] != '.';
    assert p[j] == base[j];
    assert HasNonDot(p, 0, |base|);
    assert p[..|base|] == base && p[|base|..] == ext;
  }

  /** A name with no dot has no extension. */
  lemma SplitExtNoDot(p: string)
    requires '.' !in p
    ensures SplitExt(p) == (p, [])
  {
    assert LastIndexOf(p, '.') == -1;
  }

  /** A name whose only dot is its first character (a "dotfile") has no extension. */
  lemma SplitExtDotfile(p: string)
    requires |p| >= 1 && p[0] == '.' && '.' !in p[1..]
    ensures SplitExt(p) == (p, [])
  {
    forall j | 0 < j < |p| ensures p[j] != '.' { assert p[j] == p[1..][j - 1]; }
    assert LastIndexOf(p, '.') == 0;
  }

  /** `os.path.basename` on POSIX: everything after the last `/`. */
  function Basename(p: string): (r: string)
    ensures '/' !in r
    ensures exists k :: 0 <= k <= |p| && p[k..] == r && (k == 0 || p[k - 1] == '/')
  {
    var k := LastIndexOf(p, '/') + 1;
    // k is the witness of the existential ensures.
    assert 0 <= k <= |p| && (k == 0 || p[k - 1] == '/');
    p[k..]
  }

  /** The case mapping of `str.lower` on the characters whose lower case is
      ASCII: the letters `A`-`Z` and U+212A KELVIN SIGN, which lowers to `k`. */
  function LowerChar(c: char): char {
    if 'A' <= c <= 'Z' then (c as int + 32) as char
    else if c == '\U{212A}' then 'k'
    else c
  }

  function Lower(s: string): (r: string)
    ensures |r| == |s|
    ensures forall i :: 0 <= i < |s| ==> r[i] == LowerChar(s[i])
  {
    if s == [] then [] else [LowerChar(s[0])] + Lower(s[1..])
  }

  function Digit(n: nat): char
    requires n < 10
  {
    (48 + n) as char
  }

  /** Decimal rendering of a natural number, as Python's `f"{n}"`. */
  function NatToString(n: nat): (s: string)
    ensures |s| >= 1
    ensures n >= 10 ==> |s| >= 2
    ensures n < 10 ==> |s| == 1
    ensures forall i :: 0 <= i < |s| ==> '0' <= s[i] <= '9'
    ensures s[0] == '0' ==> n == 0
  {
    if n < 10 then [Digit(n)] else NatToString(n / 10) + [Digit(n % 10)]
  }

  lemma {:induction false} NatToStringInjective(a: nat, b: nat)
    requires NatToString(a) == NatToString(b)
    ensures a == b
    decreases a
  {
    if a >= 10 && b >= 10 {
      var sa, sb := NatToString(a), NatToString(b);
      assert sa[..|sa| - 1] == NatToString(a / 10);
      assert sb[..|sb| - 1] == NatToString(b / 10);
      assert sa[|sa| - 1] == Digit(a % 10);
      assert sb[|sb| - 1] == Digit(b % 10);
      NatToStringInjective(a / 10, b / 10);
    }
  }
}
