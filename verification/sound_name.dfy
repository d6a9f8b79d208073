/** How a sound's name is derived from its file name, and the `.ogg` test.

    The constructor of a sound turns `prefix` and a path such as
    `sounds\sfx\boom.ogg` into `prefix + "boom"`: backslashes are read as
    slashes, the last slash-separated component is kept, and everything from
    its last dot on is dropped. */
module SoundName {

  /** Every backslash replaced by a forward slash, all other characters kept. */
  function Normalize(s: string): (r: string)
    ensures |r| == |s|
    ensures forall i :: 0 <= i < |s| ==> r[i] == (if s[i] == '\\' then '/' else s[i])
    ensures '\\' !in r
  {
    if s == [] then []
    else [if s[0] == '\\' then '/' else s[0]] + Normalize(s[1..])
  }

  /** Position of the last `c` in `s`, or -1 when `c` does not occur. */
  function LastIndexOf(s: string, c: char): (r: int)
    ensures -1 <= r < |s|
    ensures r >= 0 ==> s[r] == c
    ensures forall j :: r < j < |s| ==> s[j] != c
  {
    if |s| == 0 then -1
    else if s[|s| - 1] == c then |s| - 1
    else LastIndexOf(s[..|s| - 1], c)
  }

  /** The last element of splitting `s` at every `/`: the longest suffix
      without a slash. */
  function LastComponent(s: string): (r: string)
    ensures |r| <= |s| && r == s[|s| - |r|..]
    ensures '/' !in r
    ensures |r| < |s| ==> s[|s| - |r| - 1] == '/'
  {
    s[LastIndexOf(s, '/') + 1..]
  }

  /** The first element of splitting `s` once at its last `.`: the text
      before the last dot, or all of `s` when it has no dot. */
  function StripExtension(s: string): (r: string)
    ensures |r| <= |s| && r == s[..|r|]
    ensures |r| < |s| ==> s[|r|] == '.' && '.' !in s[|r| + 1..]
    ensures |r| == |s| ==> '.' !in s
  {
    var dot := LastIndexOf(s, '.');
    if dot < 0 then s else s[..dot]
  }

  /** The name a sound is registered under. */
  function DeriveName(prefix: string, filename: string): (r: string)
    ensures |r| >= |prefix| && r[..|prefix|] == prefix
    ensures '/' !in r[|prefix|..] && '\\' !in r[|prefix|..]
  {
    var n := Normalize(filename);
    var comp := LastComponent(n);
    var stem := StripExtension(comp);
    AbsentFromSlice(n, '\\', |n| - |comp|, |n|);
    AbsentFromSlice(comp, '/', 0, |stem|);
    AbsentFromSlice(comp, '\\', 0, |stem|);
    assert (prefix + stem)[|prefix|..] == stem;
    prefix + stem
  }

  /** `s` holds `pat` starting at position `i`. */
  predicate OccursAt(s: string, pat: string, i: nat)
  {
    i + |pat| <= |s| && s[i..i + |pat|] == pat
  }

  /** Substring search, as the string library's `contains`. */
  function Contains(s: string, pat: string): (r: bool)
    ensures r <==> exists i: nat :: OccursAt(s, pat, i)
  {
    if |s| < |pat| then false
    else if s[..|pat|] == pat then (assert OccursAt(s, pat, 0); true)
    else (ShiftOccurrence(s, pat); Contains(s[1..], pat))
  }

  /** When `pat` is not at the front of `s`, it occurs in `s` exactly when
      it occurs in `s` without its first character. */
  lemma ShiftOccurrence(s: string, pat: string)
    requires |s| >= |pat| && s[..|pat|] != pat
    ensures (exists i: nat :: OccursAt(s, pat, i)) <==> (exists i: nat :: OccursAt(s[1..], pat, i))
  {
    if i: nat :| OccursAt(s, pat, i) {
      assert s[0..|pat|] == s[..|pat|];
      assert i != 0;
      assert s[1..][i - 1..i - 1 + |pat|] == s[i..i + |pat|];
      assert OccursAt(s[1..], pat, i - 1);
    }
    if i: nat :| OccursAt(s[1..], pat, i) {
      assert s[1..][i..i + |pat|] == s[i + 1..i + 1 + |pat|];
      assert OccursAt(s, pat, i + 1);
    }
  }

  /** A file counts as Ogg when `.ogg` occurs anywhere in its name. */
  predicate IsOgg(filename: string)
    ensures IsOgg(filename) <==> exists i: nat :: OccursAt(filename, ".ogg", i)
  {
    Contains(filename, ".ogg")
  }

  /** A character missing from `s` is missing from every slice of it. */
  lemma AbsentFromSlice(s: string, c: char, i: nat, j: nat)
    requires i <= j <= |s| && c !in s
    ensures c !in s[i..j]
  {
  }

  lemma NormalizeAppend(a: string, b: string)
    ensures Normalize(a + b) == Normalize(a) + Normalize(b)
  {
  }

  /** Normalizing text without backslashes changes nothing. */
  lemma NormalizeKeepsPlainText(s: string)
    requires '\\' !in s
    ensures Normalize(s) == s
  {
  }

  /** The name of `dir + stem + "." + ext` is `prefix + stem`, whatever the
      directory part, when the stem has no separators and the extension has
      no separator or dot. */
  lemma {:induction false} DeriveNameOfPath(prefix: string, dir: string, stem: string, ext: string)
    requires dir == [] || dir[|dir| - 1] == '/' || dir[|dir| - 1] == '\\'
    requires '/' !in stem && '\\' !in stem
    requires '/' !in ext && '\\' !in ext && '.' !in ext
    ensures DeriveName(prefix, dir + stem + "." + ext) == prefix + stem
  {
    var base := stem + "." + ext;
    assert dir + stem + "." + ext == dir + base;
    BaseNameAfterDirectory(dir, base);
    StripAtLastDot(stem, ext);
  }

  /** The extension dropped is the text after the last dot. */
  lemma StripAtLastDot(stem: string, ext: string)
    requires '.' !in ext
    ensures StripExtension(stem + "." + ext) == stem
  {
    var base := stem + "." + ext;
    forall j | |stem| < j < |base|
      ensures base[j] != '.'
    {
      assert base[j] == ext[j - |stem| - 1];
    }
    assert base[|stem|] == '.';
    assert LastIndexOf(base, '.') == |stem|;
    assert base[..|stem|] == stem;
  }

  /** The name of `dir + base` is `prefix + base` when `base` has neither
      separator nor dot. */
  lemma {:induction false} DeriveNameWithoutExtension(prefix: string, dir: string, base: string)
    requires dir == [] || dir[|dir| - 1] == '/' || dir[|dir| - 1] == '\\'
    requires '/' !in base && '\\' !in base && '.' !in base
    ensures DeriveName(prefix, dir + base) == prefix + base
  {
    BaseNameAfterDirectory(dir, base);
  }

  /** Behind a directory part that ends in a separator, the last component of
      the normalized path is the (separator-free) file part. */
  lemma {:induction false} BaseNameAfterDirectory(dir: string, base: string)
    requires dir == [] || dir[|dir| - 1] == '/' || dir[|dir| - 1] == '\\'
    requires '/' !in base && '\\' !in base
    ensures LastComponent(Normalize(dir + base)) == base
  {
    NormalizeAppend(dir, base);
    NormalizeKeepsPlainText(base);
    var n := Normalize(dir + base);
    assert n == Normalize(dir) + base;
    var k := LastIndexOf(n, '/');
    forall j | |dir| <= j < |n|
      ensures n[j] != '/'
    {
      assert n[j] == base[j - |dir|];
    }
    if dir != [] {
      assert n[|dir| - 1] == '/';
    }
    assert k == |dir| - 1;
    assert n[k + 1..] == base;
  }

  /** `.ogg` anywhere in the name is enough, so this is not a suffix test. */
  lemma IsOggIsNotSuffixTest()
    ensures IsOgg("music.ogg.bak")
  {
    assert OccursAt("music.ogg.bak", ".ogg", 5);
  }

  /** The test is case-sensitive. */
  lemma IsOggIsCaseSensitive()
    ensures !IsOgg("music.OGG")
  {
    var upper := "music.OGG";
    assert forall i: nat :: OccursAt(upper, ".ogg", i) ==> upper[i + 1] == 'o';
  }

  /** Every name ending in `.ogg` passes the test. */
  lemma OggSuffixIsOgg(stem: string)
    ensures IsOgg(stem + ".ogg")
  {
    assert OccursAt(stem + ".ogg", ".ogg", |stem|);
  }
}
