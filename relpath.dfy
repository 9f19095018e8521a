/**
 * `ChangeSettingsDialog.createRelativePath`: the path that leads from an
 * absolute source folder to an absolute destination, built from their
 * components. Whether a path is absolute (`isAbsolute`) and the file
 * separator (`sep`) are parameters.
 */
module RelativePaths {
  import opened JavaTypes

  /** `indexOf`: the first position of `c` in `s`. */
  function IndexOf(s: JString, c: JChar): (r: Option<nat>)
    ensures r.None? <==> c !in s
    ensures r.Some? ==> r.value < |s| && s[r.value] == c && c !in s[..r.value]
  {
    if |s| == 0 then None
    else if s[0] == c then Some(0)
    else
      match IndexOf(s[1..], c)
      case None => None
      case Some(i) =>
        assert s[..i + 1] == [s[0]] + s[1..][..i];
        Some(i + 1)
  }

  /** A first occurrence is what `indexOf` finds. */
  lemma {:induction false} IndexOfFirst(s: JString, c: JChar, i: nat)
    requires i < |s| && s[i] == c && c !in s[..i]
    ensures IndexOf(s, c) == Some(i)
  {
    if i > 0 {
      assert s[0] in s[..i];
      assert s[1..][..i - 1] == s[1..i];
      assert forall x | x in s[1..i] :: x in s[..i];
      IndexOfFirst(s[1..], c, i - 1);
    }
  }

  /** The components of `path` between separators; an empty last component is dropped. */
  function Tokens(path: JString, sep: JChar): (r: seq<JString>)
    ensures forall t | t in r :: sep !in t
    ensures r == [] <==> path == []
    decreases |path|
  {
    match IndexOf(path, sep)
    case None => if path == [] then [] else [path]
    case Some(i) => [path[..i]] + Tokens(path[i + 1..], sep)
  }

  /** The components with a separator between each two. */
  function Join(tokens: seq<JString>, sep: JChar): JString
  {
    if |tokens| == 0 then []
    else if |tokens| == 1 then tokens[0]
    else tokens[0] + [sep] + Join(tokens[1..], sep)
  }

  lemma JoinCons(h: JString, t: seq<JString>, sep: JChar)
    requires |t| > 0
    ensures Join([h] + t, sep) == h + [sep] + Join(t, sep)
  {
    assert ([h] + t)[1..] == t;
  }

  /** The separator `path` ends with, if it ends with one. */
  function Trailing(path: JString, sep: JChar): JString
  {
    if |path| > 0 && path[|path| - 1] == sep then [sep] else []
  }

  /** Splitting loses nothing but a final separator. */
  lemma {:induction false} TokensJoin(path: JString, sep: JChar)
    ensures path == Join(Tokens(path, sep), sep) + Trailing(path, sep)
    decreases |path|
  {
    match IndexOf(path, sep)
    case None =>
      assert path != [] ==> path[|path| - 1] in path;
    case Some(i) =>
      var head := path[..i];
      var rest := path[i + 1..];
      assert path == head + [sep] + rest;
      TokensCons(head, rest, sep);
      if rest == [] {
        assert Join([head], sep) == head;
      } else {
        TokensJoin(rest, sep);
        JoinStep(head, rest, Tokens(rest, sep), sep);
      }
  }

  lemma TokensCons(head: JString, rest: JString, sep: JChar)
    requires sep !in head
    ensures Tokens(head + [sep] + rest, sep) == [head] + Tokens(rest, sep)
  {
    var p := head + [sep] + rest;
    assert p[..|head|] == head;
    IndexOfFirst(p, sep, |head|);
    assert p[|head| + 1..] == rest;
  }

  /** One component in front of a path that its components join back into. */
  lemma JoinStep(head: JString, rest: JString, t: seq<JString>, sep: JChar)
    requires rest != [] && |t| > 0
    requires rest == Join(t, sep) + Trailing(rest, sep)
    ensures head + [sep] + rest == Join([head] + t, sep) + Trailing(head + [sep] + rest, sep)
  {
    var p := head + [sep] + rest;
    assert Trailing(p, sep) == Trailing(rest, sep) by {
      assert p[|p| - 1] == rest[|rest| - 1];
    }
    JoinCons(head, t, sep);
    calc {
      p;
      head + [sep] + (Join(t, sep) + Trailing(rest, sep));
      (head + [sep] + Join(t, sep)) + Trailing(rest, sep);
    }
  }

  /** Components without separators, joined and terminated by one, split back into themselves. */
  lemma {:induction false} TokensOfJoin(tokens: seq<JString>, sep: JChar)
    requires |tokens| > 0
    requires forall t | t in tokens :: sep !in t
    ensures Tokens(Join(tokens, sep) + [sep], sep) == tokens
  {
    var h := tokens[0];
    assert h in tokens;
    if |tokens| == 1 {
      assert Join(tokens, sep) + [sep] == h + [sep] + [];
      TokensCons(h, [], sep);
    } else {
      var t := tokens[1..];
      assert forall x | x in t :: x in tokens;
      assert tokens == [h] + t;
      JoinCons(h, t, sep);
      assert Join(tokens, sep) + [sep] == h + [sep] + (Join(t, sep) + [sep]);
      TokensCons(h, Join(t, sep) + [sep], sep);
      TokensOfJoin(t, sep);
    }
  }

  /** How many leading components `a` and `b` have in common. */
  function CommonPrefixLength(a: seq<JString>, b: seq<JString>): (n: nat)
    ensures n <= |a| && n <= |b| && a[..n] == b[..n]
    ensures n == |a| || n == |b| || a[n] != b[n]
  {
    if |a| > 0 && |b| > 0 && a[0] == b[0] then
      var m := CommonPrefixLength(a[1..], b[1..]);
      assert a[..m + 1] == [a[0]] + a[1..][..m];
      assert b[..m + 1] == [b[0]] + b[1..][..m];
      1 + m
    else 0
  }

  /** `k` times `..` and a separator. */
  function Ups(k: nat, sep: JChar): (r: JString)
    ensures |r| == 3 * k
    ensures forall j | 0 <= j < k :: r[3 * j..3 * j + 3] == Str("..") + [sep]
  {
    if k == 0 then []
    else
      var r := Ups(k - 1, sep) + Str("..") + [sep];
      assert forall j | 0 <= j < k - 1 :: r[3 * j..3 * j + 3] == Ups(k - 1, sep)[3 * j..3 * j + 3];
      r
  }

  /** Destination component `i` as written: followed by a separator unless it is the last one and holds a dot. */
  function Component(d: seq<JString>, i: nat, sep: JChar): JString
    requires i < |d|
  {
    d[i] + (if i != |d| - 1 || JC('.') !in d[i] then [sep] else [])
  }

  /** The destination components from `i` on, as written. */
  function DestFrom(d: seq<JString>, i: nat, sep: JChar): JString
    requires i <= |d|
    decreases |d| - i
  {
    if i == |d| then [] else Component(d, i, sep) + DestFrom(d, i + 1, sep)
  }

  /** Without dots, the destination text is the components joined, with a final separator. */
  lemma {:induction false} DestFromWithoutDots(d: seq<JString>, i: nat, sep: JChar)
    requires i < |d|
    requires forall t | t in d :: JC('.') !in t
    ensures DestFrom(d, i, sep) == Join(d[i..], sep) + [sep]
    decreases |d| - i
  {
    assert d[i] in d;
    if i + 1 < |d| {
      DestFromWithoutDots(d, i + 1, sep);
      assert d[i..][1..] == d[i + 1..];
    } else {
      assert d[i..] == [d[i]];
    }
  }

  /** What `createRelativePath` returns: `null`, a path, or the exception an empty component list raises. */
  datatype RelativePath = Null | Path(path: JString) | IndexOutOfBounds

  /** Reference definition of `createRelativePath`. */
  function RelativePathSpec(srcFolder: JString, dest: JString, isAbsolute: JString -> bool, sep: JChar): RelativePath
  {
    if !isAbsolute(srcFolder) || !isAbsolute(dest) then Null
    else
      var s := Tokens(srcFolder, sep);
      var d := Tokens(dest, sep);
      if |s| == 0 || |d| == 0 then IndexOutOfBounds
      else if s[0] != d[0] then Null
      else
        var n := CommonPrefixLength(s, d);
        Path(Ups(|s| - n, sep) + DestFrom(d[n..], 0, sep))
  }

  /** The result is `null` exactly when a path is not absolute or the two first components differ. */
  lemma RelativePathIsNull(srcFolder: JString, dest: JString, isAbsolute: JString -> bool, sep: JChar)
    ensures var s := Tokens(srcFolder, sep); var d := Tokens(dest, sep);
      RelativePathSpec(srcFolder, dest, isAbsolute, sep).Null? <==>
        !isAbsolute(srcFolder) || !isAbsolute(dest) || (|s| > 0 && |d| > 0 && s[0] != d[0])
    ensures RelativePathSpec(srcFolder, dest, isAbsolute, sep).IndexOutOfBounds? <==>
      isAbsolute(srcFolder) && isAbsolute(dest) && (srcFolder == [] || dest == [])
  {
  }

  /**
   * A path: one `..` per source component after the common ones, then the
   * destination components after the common ones, with at least the first
   * component common.
   */
  lemma RelativePathShape(srcFolder: JString, dest: JString, isAbsolute: JString -> bool, sep: JChar)
    requires RelativePathSpec(srcFolder, dest, isAbsolute, sep).Path?
    ensures var s := Tokens(srcFolder, sep); var d := Tokens(dest, sep);
      var n := CommonPrefixLength(s, d);
      1 <= n && s[..n] == d[..n] && (n == |s| || n == |d| || s[n] != d[n])
      && RelativePathSpec(srcFolder, dest, isAbsolute, sep).path == Ups(|s| - n, sep) + DestFrom(d[n..], 0, sep)
  {
    var s := Tokens(srcFolder, sep);
    var d := Tokens(dest, sep);
    assert |s| > 0 && |d| > 0 && s[0] == d[0];
    CommonHeadIsCounted(s, d);
  }

  lemma CommonHeadIsCounted(a: seq<JString>, b: seq<JString>)
    requires |a| > 0 && |b| > 0 && a[0] == b[0]
    ensures 1 <= CommonPrefixLength(a, b)
  {
  }

  /** From a folder to a folder inside it: only the extra components, no `..`. */
  lemma RelativePathToDescendant(srcFolder: JString, dest: JString, isAbsolute: JString -> bool, sep: JChar, extra: seq<JString>)
    requires isAbsolute(srcFolder) && isAbsolute(dest) && srcFolder != []
    requires Tokens(dest, sep) == Tokens(srcFolder, sep) + extra
    ensures RelativePathSpec(srcFolder, dest, isAbsolute, sep) == Path(DestFrom(extra, 0, sep))
  {
    var s := Tokens(srcFolder, sep);
    assert Tokens(dest, sep)[..|s|] == s;
    assert Tokens(dest, sep)[|s|..] == extra;
  }

  /** From a folder to one of its ancestors: one `..` per extra source component. */
  lemma RelativePathToAncestor(srcFolder: JString, dest: JString, isAbsolute: JString -> bool, sep: JChar, extra: seq<JString>)
    requires isAbsolute(srcFolder) && isAbsolute(dest) && dest != []
    requires Tokens(srcFolder, sep) == Tokens(dest, sep) + extra
    ensures RelativePathSpec(srcFolder, dest, isAbsolute, sep) == Path(Ups(|extra|, sep))
  {
    var d := Tokens(dest, sep);
    assert Tokens(srcFolder, sep)[..|d|] == d;
    assert d[|d|..] == [];
  }

  /** Tokenise a path as the `indexOf`/`substring` loop does. */
  method Split(path: JString, sep: JChar) returns (tokens: seq<JString>)
    ensures tokens == Tokens(path, sep)
  {
    tokens := [];
    var rest := path;
    while IndexOf(rest, sep).Some?
      invariant tokens + Tokens(rest, sep) == Tokens(path, sep)
      decreases |rest|
    {
      var index := IndexOf(rest, sep).value;
      tokens := tokens + [rest[..index]];
      rest := rest[index + 1..];
    }
    if rest != [] {
      tokens := tokens + [rest];
    }
  }

  /** The loop that removes the common leading components from both lists. */
  method RemoveCommon(src: seq<JString>, dst: seq<JString>) returns (s: seq<JString>, d: seq<JString>)
    ensures s == src[CommonPrefixLength(src, dst)..] && d == dst[CommonPrefixLength(src, dst)..]
  {
    s, d := src, dst;
    ghost var k := 0;
    while |s| != 0 && |d| != 0 && s[0] == d[0]
      invariant 0 <= k <= |src| && k <= |dst| && s == src[k..] && d == dst[k..]
      invariant k + CommonPrefixLength(s, d) == CommonPrefixLength(src, dst)
      decreases |s|
    {
      s := s[1..];
      d := d[1..];
      k := k + 1;
    }
  }

  /** The loop that writes one `..` and a separator per remaining source component. */
  method WriteUps(k: nat, sep: JChar) returns (relativePath: JString)
    ensures relativePath == Ups(k, sep)
  {
    relativePath := [];
    var i := 0;
    while i < k
      invariant 0 <= i <= k && relativePath == Ups(i, sep)
    {
      relativePath := relativePath + Str("..") + [sep];
      i := i + 1;
    }
  }

  /** The loop that appends the remaining destination components. */
  method WriteDestination(prefix: JString, d: seq<JString>, sep: JChar) returns (relativePath: JString)
    ensures relativePath == prefix + DestFrom(d, 0, sep)
  {
    relativePath := prefix;
    var i := 0;
    while i < |d|
      invariant 0 <= i <= |d|
      invariant relativePath + DestFrom(d, i, sep) == prefix + DestFrom(d, 0, sep)
    {
      relativePath := relativePath + d[i];
      if i != |d| - 1 || JC('.') !in d[i] {
        relativePath := relativePath + [sep];
      }
      i := i + 1;
    }
  }

  /** `createRelativePath`. */
  method CreateRelativePath(srcFolder: JString, dest: JString, isAbsolute: JString -> bool, sep: JChar) returns (r: RelativePath)
    ensures r == RelativePathSpec(srcFolder, dest, isAbsolute, sep)
  {
    if !isAbsolute(srcFolder) || !isAbsolute(dest) {
      return Null;
    }
    var srcTokens := Split(srcFolder, sep);
    var destTokens := Split(dest, sep);
    if |srcTokens| == 0 || |destTokens| == 0 {
      return IndexOutOfBounds;
    }
    if srcTokens[0] != destTokens[0] {
      return Null;
    }
    var s, d := RemoveCommon(srcTokens, destTokens);
    var ups := WriteUps(|s|, sep);
    var relativePath := WriteDestination(ups, d, sep);
    r := Path(relativePath);
  }
}
