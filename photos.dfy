/**
 * The file-name rule of `resize_image`: a photo already narrow enough keeps its
 * name; a resized copy gets the size's suffix before the extension.
 */
module Photos {
  import opened Wrappers

  /** `PHOTOBOOK_PHOTO_SIZE`. */
  const SMALL: int := 400
  const MEDIUM: int := 800

  /** `PHOTOBOOK_PHOTO_SUFFIX`: defined for the two configured widths only. */
  const PHOTO_SUFFIX: map<int, string> := map[SMALL := "_s", MEDIUM := "_m"]

  /** The last position of `c` in `s`, or -1. */
  function LastIndexOf(s: string, c: char): (r: int)
    ensures -1 <= r < |s|
    ensures r >= 0 ==> s[r] == c
    ensures forall k :: r < k < |s| ==> s[k] != c
  {
    if s == [] then -1
    else if s[|s| - 1] == c then |s| - 1
    else LastIndexOf(s[..|s| - 1], c)
  }

  /**
   * `os.path.splitext` on a POSIX path: the extension runs from the last dot
   * of the last path component, unless only dots precede it in that component.
   */
  function SplitExt(p: string): (r: (string, string))
    ensures r.0 + r.1 == p
    ensures r.1 == [] || (r.1[0] == '.' && forall k :: 0 <= k < |r.1| ==> r.1[k] != '/' && (k > 0 ==> r.1[k] != '.'))
  {
    var sep := LastIndexOf(p, '/');
    var dot := LastIndexOf(p, '.');
    if dot > sep && exists k :: sep + 1 <= k < dot && p[k] != '.' then
      assert forall k :: 0 <= k < |p[dot..]| ==> p[dot..][k] == p[dot + k];
      (p[..dot], p[dot..])
    else
      (p, [])
  }

  /**
   * The name `resize_image(image, filename, base_width)` returns for an image
   * `width` pixels wide; `None` where the suffix lookup fails (a width
   * without a configured suffix).
   */
  function ResizedName(filename: string, width: int, baseWidth: int): (r: Option<string>)
    ensures width <= baseWidth ==> r == Some(filename)
    ensures width > baseWidth && baseWidth in PHOTO_SUFFIX ==>
              r == Some(SplitExt(filename).0 + PHOTO_SUFFIX[baseWidth] + SplitExt(filename).1)
    ensures r.None? <==> width > baseWidth && baseWidth != SMALL && baseWidth != MEDIUM
  {
    var (stem, ext) := SplitExt(filename);
    if width <= baseWidth then Some(stem + ext)
    else if baseWidth in PHOTO_SUFFIX then Some(stem + PHOTO_SUFFIX[baseWidth] + ext)
    else None
  }

  /** The contract of `LastIndexOf` determines its result. */
  lemma LastIndexOfUnique(s: string, c: char, r: int)
    requires -1 <= r < |s|
    requires r >= 0 ==> s[r] == c
    requires forall k :: r < k < |s| ==> s[k] != c
    ensures LastIndexOf(s, c) == r
  {
  }

  /** Where `c` occurs in `t`, the last `c` of `s + t` is the last one of `t`; otherwise that of `s`. */
  lemma LastIndexOfAppend(s: string, t: string, c: char)
    ensures LastIndexOf(s + t, c) == if LastIndexOf(t, c) >= 0 then |s| + LastIndexOf(t, c) else LastIndexOf(s, c)
  {
    var rt := LastIndexOf(t, c);
    var rs := LastIndexOf(s, c);
    var u := s + t;
    if rt >= 0 {
      assert u[|s| + rt] == t[rt];
      forall k | |s| + rt < k < |u| ensures u[k] != c {
        assert u[k] == t[k - |s|];
      }
      LastIndexOfUnique(u, c, |s| + rt);
    } else {
      forall k | rs < k < |u| ensures u[k] != c {
        if k < |s| {
          assert u[k] == s[k];
        } else {
          assert u[k] == t[k - |s|];
        }
      }
      if rs >= 0 {
        assert u[rs] == s[rs];
      }
      LastIndexOfUnique(u, c, rs);
    }
  }

  /** Appending `w`, free of `/` and `.`, to a name without an extension leaves it without one. */
  lemma SplitExtAppendNoExt(p: string, w: string)
    requires SplitExt(p).1 == []
    requires forall k :: 0 <= k < |w| ==> w[k] != '/' && w[k] != '.'
    ensures SplitExt(p + w) == (p + w, [])
  {
    var name := p + w;
    LastIndexOfUnique(w, '/', -1);
    LastIndexOfUnique(w, '.', -1);
    LastIndexOfAppend(p, w, '/');
    LastIndexOfAppend(p, w, '.');
    var sep := LastIndexOf(p, '/');
    var dot := LastIndexOf(p, '.');
    assert LastIndexOf(name, '/') == sep && LastIndexOf(name, '.') == dot;
  }

  /** Inserting `w`, free of `/` and `.`, before an extension keeps that extension. */
  lemma SplitExtInsertBeforeExt(p: string, w: string)
    requires SplitExt(p).1 != []
    requires forall k :: 0 <= k < |w| ==> w[k] != '/' && w[k] != '.'
    ensures SplitExt(SplitExt(p).0 + w + SplitExt(p).1) == (SplitExt(p).0 + w, SplitExt(p).1)
  {
    var stem := SplitExt(p).0;
    var ext := SplitExt(p).1;
    var sep := LastIndexOf(p, '/');
    var dot := LastIndexOf(p, '.');
    assert dot == |stem|;
    var k :| sep + 1 <= k < dot && p[k] != '.';
    LastIndexOfUnique(w, '/', -1);
    LastIndexOfUnique(w, '.', -1);
    LastIndexOfUnique(ext, '/', -1);
    LastIndexOfUnique(ext, '.', 0);
    LastIndexOfAppend(stem, ext, '/');
    LastIndexOfAppend(stem, w, '/');
    LastIndexOfAppend(stem + w, ext, '/');
    LastIndexOfAppend(stem + w, ext, '.');
    var name := stem + w + ext;
    assert LastIndexOf(name, '/') == sep;
    assert LastIndexOf(name, '.') == |stem| + |w|;
    assert name[k] == p[k];
    assert name[..|stem| + |w|] == stem + w;
    assert name[|stem| + |w|..] == ext;
  }

  /** A resized name keeps the original extension; the suffix joins the stem. */
  lemma ResizedNameKeepsExtension(filename: string, width: int, baseWidth: int)
    requires width > baseWidth && baseWidth in PHOTO_SUFFIX
    ensures SplitExt(ResizedName(filename, width, baseWidth).value)
            == (SplitExt(filename).0 + PHOTO_SUFFIX[baseWidth], SplitExt(filename).1)
  {
    var suffix := PHOTO_SUFFIX[baseWidth];
    assert forall k :: 0 <= k < |suffix| ==> suffix[k] != '/' && suffix[k] != '.';
    if SplitExt(filename).1 == [] {
      SplitExtAppendNoExt(filename, suffix);
      assert SplitExt(filename).0 + suffix + SplitExt(filename).1 == filename + suffix;
    } else {
      SplitExtInsertBeforeExt(filename, suffix);
    }
  }

  /** The two sizes of one photo are written under distinct names, neither the original's. */
  lemma ResizedNamesDistinct(filename: string, width: int)
    requires width > MEDIUM
    ensures ResizedName(filename, width, SMALL) != ResizedName(filename, width, MEDIUM)
    ensures ResizedName(filename, width, SMALL) != Some(filename)
    ensures ResizedName(filename, width, MEDIUM) != Some(filename)
  {
    var (stem, ext) := SplitExt(filename);
    var small := stem + "_s" + ext;
    var medium := stem + "_m" + ext;
    assert small[|stem| + 1] != medium[|stem| + 1];
    assert |small| != |filename|;
  }

  /** Examples of the extension rule. */
  lemma SplitExtExamples()
    ensures SplitExt("a1b2.jpg") == ("a1b2", ".jpg")
    ensures SplitExt("photo.tar.gz") == ("photo.tar", ".gz")
    ensures SplitExt(".profile") == (".profile", "")
    ensures SplitExt("dir.d/name") == ("dir.d/name", "")
  {
    LastIndexOfUnique("a1b2.jpg", '/', -1);
    LastIndexOfUnique("a1b2.jpg", '.', 4);
    assert "a1b2.jpg"[0] != '.';
    assert "a1b2.jpg"[..4] == "a1b2" && "a1b2.jpg"[4..] == ".jpg";
    LastIndexOfUnique("photo.tar.gz", '/', -1);
    LastIndexOfUnique("photo.tar.gz", '.', 9);
    assert "photo.tar.gz"[0] != '.';
    assert "photo.tar.gz"[..9] == "photo.tar" && "photo.tar.gz"[9..] == ".gz";
    LastIndexOfUnique(".profile", '/', -1);
    LastIndexOfUnique(".profile", '.', 0);
    LastIndexOfUnique("dir.d/name", '/', 5);
    LastIndexOfUnique("dir.d/name", '.', 3);
  }
}
