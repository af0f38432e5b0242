/**
 * The PHP built-ins that the plugin's decision logic leans on, written out over `string`
 * (a sequence of chars, one per byte of the PHP string): truthiness, `pathinfo()`,
 * `strtolower()`, `str_replace()`, `implode()`, `array_unique()`, `array_diff()` and
 * `intval()` of a run of decimal digits.
 */
module Php {
  import opened Wrappers

  /** PHP's largest integer on a 64-bit build; `intval()` saturates there. */
  const PHP_INT_MAX: int := 0x7fff_ffff_ffff_ffff

  /** A string is falsy in PHP when it is "" or "0". */
  predicate IsFalsyString(s: string) {
    s == "" || s == "0"
  }

  /** Truthiness of a nullable string, as in `if (!$path)`. */
  predicate IsTruthy(s: Option<string>) {
    s.Some? && !IsFalsyString(s.value)
  }

  // ---------------------------------------------------------------------------
  // pathinfo(): the path separator is '/'
  // ---------------------------------------------------------------------------

  /** Index of the last occurrence of `c` in `s`. */
  function LastIndexOf(s: string, c: char): (r: Option<nat>)
    ensures r.Some? ==> r.value < |s| && s[r.value] == c
  {
    if |s| == 0 then None
    else if s[|s| - 1] == c then Some(|s| - 1)
    else
      var r := LastIndexOf(s[..|s| - 1], c);
      assert s == s[..|s| - 1] + [s[|s| - 1]];
      r
  }

  /** The index found is the last: no `c` follows it, and there is no `c` when none is found. */
  lemma {:induction false} LastIndexOfIsLast(s: string, c: char)
    ensures match LastIndexOf(s, c)
            case None => c !in s
            case Some(i) => c !in s[i + 1..]
    decreases |s|
  {
    if |s| > 0 && s[|s| - 1] != c {
      var front := s[..|s| - 1];
      LastIndexOfIsLast(front, c);
      assert s == front + [s[|s| - 1]];
      match LastIndexOf(front, c)
      case None =>
      case Some(i) =>
        assert s[i + 1..] == front[i + 1..] + [s[|s| - 1]];
    }
  }

  /** `pathinfo($path, PATHINFO_BASENAME)`: what follows the last '/'. */
  function Basename(path: string): string {
    match LastIndexOf(path, '/')
    case None => path
    case Some(i) => path[i + 1..]
  }

  /** A basename holds no '/'. */
  lemma BasenameHasNoSlash(path: string)
    ensures '/' !in Basename(path)
  {
    LastIndexOfIsLast(path, '/');
    match LastIndexOf(path, '/')
    case None => BasenameWithoutSlash(path);
    case Some(i) => BasenameAfterSlash(path, i);
  }

  /** A filename holds no '/'. */
  lemma FilenameHasNoSlash(path: string)
    ensures '/' !in Filename(path)
  {
    BasenameHasNoSlash(path);
    var b := Basename(path);
    match LastIndexOf(b, '.')
    case None => PartsWithoutDot(path);
    case Some(i) =>
      PartsAfterDot(path, i);
      assert forall x :: x in b[..i] ==> x in b;
  }

  /** `pathinfo($path, PATHINFO_DIRNAME)`: what precedes the last '/', "/" for an entry of the
      root directory, "." when there is no '/'. */
  function Dirname(path: string): string {
    match LastIndexOf(path, '/')
    case None => "."
    case Some(i) => if i == 0 then "/" else path[..i]
  }

  /** `pathinfo($path, PATHINFO_EXTENSION)`: what follows the last '.' of the basename, or ""
      when the basename has no '.'. */
  function Extension(path: string): string {
    var b := Basename(path);
    match LastIndexOf(b, '.')
    case None => ""
    case Some(i) => b[i + 1..]
  }

  /** `pathinfo($path, PATHINFO_FILENAME)`: the basename without its last '.' and what follows. */
  function Filename(path: string): string {
    var b := Basename(path);
    match LastIndexOf(b, '.')
    case None => b
    case Some(i) => b[..i]
  }

  /** Appending text without `c` does not move the last `c`. */
  lemma {:induction false} LastIndexOfAppend(s: string, t: string, c: char)
    requires c !in t
    ensures LastIndexOf(s + t, c) == LastIndexOf(s, c)
    decreases |t|
  {
    if |t| > 0 {
      var u := s + t;
      assert u[..|u| - 1] == s + t[..|t| - 1];
      assert u[|u| - 1] == t[|t| - 1];
      LastIndexOfAppend(s, t[..|t| - 1], c);
    } else {
      assert s + t == s;
    }
  }

  /** The last `c` of `s + [c] + t` is the one between them when `t` has none. */
  lemma LastIndexOfMarker(s: string, t: string, c: char)
    requires c !in t
    ensures LastIndexOf(s + [c] + t, c) == Some(|s|)
  {
    LastIndexOfAppend(s + [c], t, c);
    assert (s + [c])[..|s|] == s;
  }

  /** A basename is taken after the last '/', so appending a name without '/' extends it. */
  lemma BasenameAppend(dir: string, name: string)
    requires '/' !in name
    ensures Basename(dir + name) == Basename(dir) + name
  {
    LastIndexOfAppend(dir, name, '/');
    match LastIndexOf(dir, '/')
    case None =>
      BasenameWithoutSlash(dir);
      BasenameWithoutSlash(dir + name);
    case Some(i) =>
      BasenameAfterSlash(dir, i);
      BasenameAfterSlash(dir + name, i);
      assert (dir + name)[i + 1..] == dir[i + 1..] + name;
  }

  lemma BasenameWithoutSlash(path: string)
    requires LastIndexOf(path, '/') == None
    ensures Basename(path) == path
  {
  }

  lemma BasenameAfterSlash(path: string, i: nat)
    requires LastIndexOf(path, '/') == Some(i)
    ensures i < |path| && Basename(path) == path[i + 1..]
  {
  }

  /** `pathinfo()` of `<anything>.<ext>` for an `ext` without '.' or '/': the extension is `ext`
      and the filename is the basename of what precedes the last dot. */
  lemma {:induction false} PathinfoOfSuffixed(front: string, ext: string)
    requires '/' !in ext && '.' !in ext
    ensures Extension(front + "." + ext) == ext
    ensures Filename(front + "." + ext) == Basename(front)
  {
    BasenameOfSuffixed(front, ext);
    PartsOfDotted(front + "." + ext, Basename(front), ext);
  }

  /** Appending "." + ext to a path extends its basename by the same. */
  lemma BasenameOfSuffixed(front: string, ext: string)
    requires '/' !in ext
    ensures Basename(front + "." + ext) == Basename(front) + ['.'] + ext
  {
    var dotExt := ['.'] + ext;
    var b := Basename(front);
    assert front + "." + ext == front + dotExt;
    assert b + dotExt == b + ['.'] + ext;
    BasenameAppend(front, dotExt);
  }

  /** A basename `<b>.<ext>` with no '.' in `ext` has extension `ext` and filename `b`. */
  lemma PartsOfDotted(path: string, b: string, ext: string)
    requires '.' !in ext
    requires Basename(path) == b + ['.'] + ext
    ensures Extension(path) == ext && Filename(path) == b
  {
    var name := b + ['.'] + ext;
    LastIndexOfMarker(b, ext, '.');
    PartsAfterDot(path, |b|);
    assert name[|b| + 1..] == ext;
    assert name[..|b|] == b;
  }

  /** The extension and the filename when the basename has no '.'. */
  lemma PartsWithoutDot(path: string)
    requires LastIndexOf(Basename(path), '.') == None
    ensures Extension(path) == "" && Filename(path) == Basename(path)
  {
  }

  /** The extension and the filename on either side of the basename's last '.'. */
  lemma PartsAfterDot(path: string, i: nat)
    requires LastIndexOf(Basename(path), '.') == Some(i)
    ensures i < |Basename(path)| && Basename(path)[i] == '.'
    ensures Extension(path) == Basename(path)[i + 1..] && Filename(path) == Basename(path)[..i]
  {
  }

  /** The basename is a suffix of the path. */
  lemma BasenameIsSuffix(path: string)
    ensures |Basename(path)| <= |path| && Basename(path) == path[|path| - |Basename(path)|..]
  {
    match LastIndexOf(path, '/')
    case None => BasenameWithoutSlash(path);
    case Some(i) => BasenameAfterSlash(path, i);
  }

  /** `Extension(path) == ext` exactly when `path` ends with "." + ext (for an `ext` without '.'
      or '/'), so the test is case-sensitive and looks only at the end of the path. */
  lemma ExtensionIsSuffix(path: string, ext: string)
    requires '/' !in ext && '.' !in ext && ext != ""
    ensures Extension(path) == ext <==> EndsWith(path, "." + ext)
  {
    if EndsWith(path, "." + ext) {
      var front := path[..|path| - |"." + ext|];
      assert path == front + "." + ext;
      PathinfoOfSuffixed(front, ext);
    }
    if Extension(path) == ext {
      SuffixOfExtension(path, ext);
    }
  }

  /** A path whose extension is a non-empty `ext` ends with "." + ext. */
  lemma SuffixOfExtension(path: string, ext: string)
    requires ext != "" && Extension(path) == ext
    ensures EndsWith(path, "." + ext)
  {
    var b := Basename(path);
    BasenameIsSuffix(path);
    match LastIndexOf(b, '.')
    case None =>
      PartsWithoutDot(path);
    case Some(i) =>
      PartsAfterDot(path, i);
      assert b[i..] == [b[i]] + b[i + 1..];
      assert b[i..] == "." + ext;
      DropOfSuffix(path, b, i);
  }

  /** What follows index `i` of a suffix `t` of `s` is a suffix of `s` as well. */
  lemma DropOfSuffix(s: string, t: string, i: nat)
    requires |t| <= |s| && t == s[|s| - |t|..] && i <= |t|
    ensures t[i..] == s[|s| - |t[i..]|..]
  {
  }

  predicate EndsWith(s: string, suffix: string) {
    |suffix| <= |s| && s[|s| - |suffix|..] == suffix
  }

  /** `pathinfo()` of `<dir>/<stem>.<ext>` for a non-empty `dir`, a `stem` without '/' and an
      `ext` without '/' or '.': each part comes back as it was put in. */
  lemma PathinfoOfJoined(dir: string, stem: string, ext: string)
    requires dir != ""
    requires '/' !in stem && '/' !in ext && '.' !in ext
    ensures var p := dir + "/" + stem + "." + ext;
            && Dirname(p) == dir && Basename(p) == stem + "." + ext
            && Filename(p) == stem && Extension(p) == ext
  {
    var p := dir + "/" + stem + "." + ext;
    var name := stem + "." + ext;
    assert p == dir + ['/'] + name;
    LastIndexOfMarker(dir, name, '/');
    assert p[..|dir|] == dir;
    assert p[|dir| + 1..] == name;
    assert name == stem + ['.'] + ext;
    LastIndexOfMarker(stem, ext, '.');
    assert name[..|stem|] == stem;
    assert name[|stem| + 1..] == ext;
  }

  /** A name without '/' is its own basename. */
  lemma BasenameOfName(name: string)
    requires '/' !in name
    ensures Basename(name) == name
  {
  }

  // ---------------------------------------------------------------------------
  // strtolower(): ASCII only, as in PHP 8.2 and later
  // ---------------------------------------------------------------------------

  function ToLowerChar(c: char): char {
    if 'A' <= c <= 'Z' then (c as int + 32) as char else c
  }

  function ToLower(s: string): string {
    seq(|s|, i requires 0 <= i < |s| => ToLowerChar(s[i]))
  }

  predicate HasUpper(s: string) {
    exists i :: 0 <= i < |s| && 'A' <= s[i] <= 'Z'
  }

  /** The result of `strtolower()` never holds an upper-case ASCII letter. */
  lemma ToLowerHasNoUpper(s: string)
    ensures !HasUpper(ToLower(s))
  {
    forall i | 0 <= i < |s| ensures !('A' <= ToLower(s)[i] <= 'Z') {
    }
  }

  // ---------------------------------------------------------------------------
  // str_replace() with one search string
  // ---------------------------------------------------------------------------

  predicate OccursAt(search: string, s: string, i: int) {
    0 <= i && i + |search| <= |s| && s[i..i + |search|] == search
  }

  /** `str_replace($search, $replace, $subject)`: every non-overlapping occurrence, scanning from
      the left; an empty search string leaves the subject as it is. */
  function ReplaceAll(search: string, replace: string, subject: string): string
    decreases |subject|
  {
    if search == [] || |subject| < |search| then subject
    else if subject[..|search|] == search then replace + ReplaceAll(search, replace, subject[|search|..])
    else [subject[0]] + ReplaceAll(search, replace, subject[1..])
  }

  /** A subject without the search string comes back unchanged. */
  lemma {:induction false} ReplaceAllAbsent(search: string, replace: string, subject: string)
    requires forall i :: 0 <= i < |subject| ==> !OccursAt(search, subject, i)
    ensures ReplaceAll(search, replace, subject) == subject
    decreases |subject|
  {
    if search != [] && |subject| >= |search| {
      assert !OccursAt(search, subject, 0);
      AbsentAfterFirst(search, subject, |subject|);
      ReplaceAllAbsent(search, replace, subject[1..]);
    }
  }

  /** Where `search` does not occur in the first `n` positions of `s`, it does not occur in the
      first `n - 1` positions of `s` without its first char. */
  lemma AbsentAfterFirst(search: string, s: string, n: nat)
    requires 0 < n <= |s|
    requires forall i :: 0 <= i < n ==> !OccursAt(search, s, i)
    ensures forall i :: 0 <= i < n - 1 ==> !OccursAt(search, s[1..], i)
  {
    forall i | 0 <= i < n - 1 ensures !OccursAt(search, s[1..], i) {
      assert !OccursAt(search, s, i + 1);
      if i + |search| <= |s| - 1 {
        assert s[1..][i..i + |search|] == s[i + 1..i + 1 + |search|];
      }
    }
  }

  /** When the only occurrence of `search` in `front + search` is the final one, that one is
      replaced and `front` is kept. */
  lemma {:induction false} ReplaceAllAtEnd(front: string, search: string, replace: string)
    requires search != []
    requires forall i :: 0 <= i < |front| ==> !OccursAt(search, front + search, i)
    ensures ReplaceAll(search, replace, front + search) == front + replace
    decreases |front|
  {
    var s := front + search;
    if |front| == 0 {
      assert s == search;
      assert s[..|search|] == search;
      assert s[|search|..] == [];
    } else {
      assert !OccursAt(search, s, 0);
      assert s[..|search|] != search;
      var tail := front[1..] + search;
      assert s[1..] == tail;
      AbsentAfterFirst(search, s, |front|);
      ReplaceAllAtEnd(front[1..], search, replace);
      assert ReplaceAll(search, replace, s) == [s[0]] + ReplaceAll(search, replace, tail);
      assert [front[0]] + (front[1..] + replace) == front + replace;
    }
  }

  // ---------------------------------------------------------------------------
  // implode()
  // ---------------------------------------------------------------------------

  /** `implode($glue, $items)`. */
  function Implode(glue: string, items: seq<string>): string {
    if |items| == 0 then ""
    else if |items| == 1 then items[0]
    else Implode(glue, items[..|items| - 1]) + glue + items[|items| - 1]
  }

  /** `implode()` of two or more items: the first item, the glue, and the rest imploded. */
  lemma {:induction false} ImplodeCons(glue: string, items: seq<string>)
    requires |items| >= 2
    ensures Implode(glue, items) == items[0] + glue + Implode(glue, items[1..])
  {
    var n := |items|;
    var front := items[..n - 1];
    if n == 2 {
      assert Implode(glue, front) == items[0];
      assert Implode(glue, items[1..]) == items[1];
    } else {
      ImplodeCons(glue, front);
      assert front[1..] == items[1..][..n - 2];
      assert items[1..][n - 2] == items[n - 1];
      assert Implode(glue, items[1..]) == Implode(glue, front[1..]) + glue + items[n - 1];
    }
  }

  function TotalLength(items: seq<string>): nat {
    if |items| == 0 then 0 else TotalLength(items[..|items| - 1]) + |items[|items| - 1]|
  }

  /** The length of `implode()`: the items and one glue between each neighbouring pair. */
  lemma {:induction false} ImplodeLength(glue: string, items: seq<string>)
    requires |items| > 0
    ensures |Implode(glue, items)| == TotalLength(items) + (|items| - 1) * |glue|
  {
    if |items| > 1 {
      ImplodeLength(glue, items[..|items| - 1]);
    } else {
      assert items[..0] == [];
    }
  }

  /** `implode()` starts with the first item and ends with the last. */
  lemma {:induction false} ImplodeEnds(glue: string, items: seq<string>)
    requires |items| > 0
    ensures var r := Implode(glue, items);
      |items[0]| <= |r| && r[..|items[0]|] == items[0] && EndsWith(r, items[|items| - 1])
  {
    if |items| > 1 {
      ImplodeEnds(glue, items[..|items| - 1]);
      var front := Implode(glue, items[..|items| - 1]);
      assert Implode(glue, items) == front + (glue + items[|items| - 1]);
    }
  }

  // ---------------------------------------------------------------------------
  // array_unique(), array_diff(), array_filter()
  // ---------------------------------------------------------------------------

  predicate NoDuplicates<T(==)>(s: seq<T>) {
    forall i, j :: 0 <= i < j < |s| ==> s[i] != s[j]
  }

  /** `array_unique()` (and `array_keys(array_flip())`): the first occurrence of every value,
      in order. */
  function Unique<T(==,!new)>(s: seq<T>): (r: seq<T>)
    ensures forall x :: x in r <==> x in s
    ensures NoDuplicates(r)
    ensures |r| <= |s|
  {
    if |s| == 0 then []
    else
      var r := Unique(s[..|s| - 1]);
      assert forall x :: x in s <==> x in s[..|s| - 1] || x == s[|s| - 1] by {
        assert s == s[..|s| - 1] + [s[|s| - 1]];
      }
      if s[|s| - 1] in r then r else r + [s[|s| - 1]]
  }

  /** `array_unique()` leaves a sequence without duplicates as it is. */
  lemma {:induction false} UniqueOfDistinct<T(!new)>(s: seq<T>)
    requires NoDuplicates(s)
    ensures Unique(s) == s
  {
    if |s| > 0 {
      UniqueOfDistinct(s[..|s| - 1]);
      assert s[|s| - 1] !in s[..|s| - 1];
    }
  }

  /** The elements of `s` that satisfy `keep`, in order (`array_filter()`). */
  function Filter<T(!new)>(s: seq<T>, keep: T -> bool): (r: seq<T>)
    ensures forall x :: x in r <==> x in s && keep(x)
    ensures |r| <= |s|
  {
    if |s| == 0 then []
    else
      var r := Filter(s[..|s| - 1], keep);
      assert forall x :: x in s <==> x in s[..|s| - 1] || x == s[|s| - 1] by {
        assert s == s[..|s| - 1] + [s[|s| - 1]];
      }
      if keep(s[|s| - 1]) then r + [s[|s| - 1]] else r
  }

  /** `array_diff($a, $b)`: the elements of `a` that are not in `b`, in order. */
  function Diff<T(==,!new)>(a: seq<T>, b: seq<T>): (r: seq<T>)
    ensures forall x :: x in r <==> x in a && x !in b
  {
    Filter(a, x => x !in b)
  }

  // ---------------------------------------------------------------------------
  // intval() of a run of decimal digits
  // ---------------------------------------------------------------------------

  predicate IsDigit(c: char) {
    '0' <= c <= '9'
  }

  predicate AllDigits(s: string) {
    forall i :: 0 <= i < |s| ==> IsDigit(s[i])
  }

  /** The longest prefix of `s` made of decimal digits. */
  function LeadingDigits(s: string): (r: string)
    ensures |r| <= |s| && r == s[..|r|] && AllDigits(r)
    ensures |r| < |s| ==> !IsDigit(s[|r|])
  {
    if |s| == 0 || !IsDigit(s[0]) then ""
    else [s[0]] + LeadingDigits(s[1..])
  }

  function DigitsValue(s: string): (n: nat)
    requires AllDigits(s)
  {
    if |s| == 0 then 0
    else DigitsValue(s[..|s| - 1]) * 10 + (s[|s| - 1] as int - '0' as int)
  }

  /** `intval()` of a string of decimal digits: its value, saturated at PHP_INT_MAX. */
  function IntvalDigits(s: string): (n: nat)
    requires AllDigits(s)
    ensures n <= PHP_INT_MAX
    ensures n == 0 <==> forall i :: 0 <= i < |s| ==> s[i] == '0'
  {
    ZeroDigits(s);
    var v := DigitsValue(s);
    if v > PHP_INT_MAX then PHP_INT_MAX else v
  }

  /** A run of digits has value zero exactly when every digit is '0'. */
  lemma {:induction false} ZeroDigits(s: string)
    requires AllDigits(s)
    ensures DigitsValue(s) == 0 <==> forall i :: 0 <= i < |s| ==> s[i] == '0'
  {
    if |s| > 0 {
      ZeroDigits(s[..|s| - 1]);
      assert forall i :: 0 <= i < |s| - 1 ==> s[..|s| - 1][i] == s[i];
    }
  }
}
