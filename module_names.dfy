/** Dotted module names: the two uses the plugin registry makes of
    `str.rsplit(".", 1)`, and the enclosing-package relation it walks. */
module ModuleNames {
  import opened Wrappers

  /** Position of the last '.' in `s`, if there is one: where `rsplit(".", 1)` cuts. */
  function LastDot(s: string): (r: Option<nat>)
    ensures r.Some? ==> r.value < |s| && s[r.value] == '.' && '.' !in s[r.value + 1..]
    ensures r.None? ==> '.' !in s
  {
    if s == [] then None
    else if s[|s| - 1] == '.' then Some(|s| - 1)
    else
      var r := LastDot(s[..|s| - 1]);
      if r.Some? then
        assert s[r.value + 1..] == s[..|s| - 1][r.value + 1..] + [s[|s| - 1]];
        r
      else
        assert s == s[..|s| - 1] + [s[|s| - 1]];
        r
  }

  /** `_module_name_to_plugin_name`: the last dot-separated segment of a module name,
      which is the longest suffix without a '.'. */
  function ShortName(moduleName: string): (r: string)
    ensures '.' !in r
    ensures |r| <= |moduleName| && r == moduleName[|moduleName| - |r|..]
    ensures |r| < |moduleName| ==> moduleName[|moduleName| - |r| - 1] == '.'
  {
    match LastDot(moduleName)
    case None => moduleName
    case Some(i) => moduleName[i + 1..]
  }

  /** `module_name.rsplit(".", 1)` seen as a pair: the text before the last '.'
      (the whole name if there is none) and whether a '.' was found. */
  function SplitLast(moduleName: string): (r: (string, bool))
    ensures r.1 <==> '.' in moduleName
    ensures r.1 ==> moduleName == r.0 + "." + ShortName(moduleName)
    ensures !r.1 ==> r.0 == moduleName
  {
    match LastDot(moduleName)
    case None => (moduleName, false)
    case Some(i) =>
      assert moduleName == moduleName[..i] + "." + moduleName[i + 1..];
      (moduleName[..i], true)
  }

  /** `q` is `s` itself or a package that encloses it: a prefix of `s` that
      stops just before one of its dots. */
  predicate EnclosingModule(q: string, s: string) {
    q == s || (|q| < |s| && q == s[..|q|] && s[|q|] == '.')
  }

  /** Any dot-free suffix of a module name is at most as long as its short name:
      the short name is the longest such suffix. */
  lemma ShortNameIsLongest(moduleName: string, t: string)
    requires |t| <= |moduleName| && t == moduleName[|moduleName| - |t|..]
    requires '.' !in t
    ensures |t| <= |ShortName(moduleName)|
  {
  }

  /** The short name of `pkg + "." + n` is `n` whenever `n` holds no '.'. */
  lemma ShortNameOfJoin(pkg: string, n: string)
    requires '.' !in n
    ensures ShortName(pkg + "." + n) == n
  {
    var s := pkg + "." + n;
    var r := ShortName(s);
    assert n == s[|s| - |n|..];
    ShortNameIsLongest(s, n);
    assert s[|s| - |n| - 1] == '.';
    assert |r| <= |n| by {
      forall k | 0 <= k < |r| ensures r[k] != '.' { }
    }
  }

  /** One step of the outward walk: the modules enclosing `s` are `s` itself and
      the modules enclosing the part of `s` before its last '.'; when `s` has no
      '.', `s` is the only one. */
  lemma {:induction false} EnclosingStep(q: string, s: string)
    ensures SplitLast(s).1 ==> (EnclosingModule(q, s) <==> q == s || EnclosingModule(q, SplitLast(s).0))
    ensures !SplitLast(s).1 ==> (EnclosingModule(q, s) <==> q == s)
  {
    var d := LastDot(s);
    if d.Some? {
      var i := d.value;
      var h := SplitLast(s).0;
      assert h == s[..i];
      if EnclosingModule(q, s) && q != s {
        if |q| < i {
          assert q == h[..|q|] && h[|q|] == '.';
        }
      }
      if EnclosingModule(q, h) && q != h {
        assert q == s[..|q|] && s[|q|] == h[|q|];
      }
    } else {
    }
  }
}
