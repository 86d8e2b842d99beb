/** What the file policy lets through, said without the splitting and case folding that the check uses. */
module FilePolicy {
  import opened Text
  import opened Base64
  import opened Snapshots
  import opened Utf8Text

  // ----- letters -----

  /** The same letter in either case, or the same character. */
  predicate Same(c: char, d: char) {
    || c == d
    || ('a' <= c <= 'z' && d as int == c as int - 32) || ('A' <= c <= 'Z' && d as int == c as int + 32)
  }

  predicate Alike(s: string, t: string) {
    |s| == |t| && forall k :: 0 <= k < |s| ==> Same(s[k], t[k])
  }

  lemma {:induction false} UpperAlike(s: string, t: string)
    requires forall k :: 0 <= k < |t| ==> !IsLower(t[k])
    ensures ToUpper(s) == t <==> Alike(s, t)
  {
    if s != "" && t != "" {
      UpperAlike(s[1..], t[1..]);
      var u := ToUpper(s);
      assert u == [u[0]] + u[1..] && t == [t[0]] + t[1..] && u[1..] == ToUpper(s[1..]);
      assert Alike(s, t) <==> Same(s[0], t[0]) && Alike(s[1..], t[1..]) by { AlikeStep(s, t); }
    }
  }

  lemma {:induction false} LowerAlike(s: string, t: string)
    requires forall k :: 0 <= k < |t| ==> !IsUpper(t[k])
    ensures ToLower(s) == t <==> Alike(s, t)
  {
    if s != "" && t != "" {
      LowerAlike(s[1..], t[1..]);
      var u := ToLower(s);
      assert u == [u[0]] + u[1..] && t == [t[0]] + t[1..] && u[1..] == ToLower(s[1..]);
      assert Alike(s, t) <==> Same(s[0], t[0]) && Alike(s[1..], t[1..]) by { AlikeStep(s, t); }
    }
  }

  lemma AlikeStep(s: string, t: string)
    requires s != "" && t != ""
    ensures Alike(s, t) <==> Same(s[0], t[0]) && Alike(s[1..], t[1..])
  {
    hide Same;
    if Alike(s[1..], t[1..]) && Same(s[0], t[0]) {
      forall k | 0 <= k < |s|
        ensures Same(s[k], t[k])
      {
        assert k > 0 ==> Same(s[1..][k - 1], t[1..][k - 1]);
      }
    }
  }

  lemma {:induction false} UpperOfFront(s: string, k: nat)
    requires k <= |s|
    ensures ToUpper(s)[..k] == ToUpper(s[..k])
    ensures k < |s| ==> (ToUpper(s)[k] == '.' <==> s[k] == '.')
  {
    if k > 0 {
      UpperOfFront(s[1..], k - 1);
      assert s[..k][1..] == s[1..][..k - 1];
    }
  }

  // ----- one component of a path -----

  /** The names that some systems keep for devices, with or without an extension. */
  predicate IsDevice(part: string) {
    exists d :: d in RESERVED && (Alike(part, d) || (|d| < |part| && Alike(part[..|d|], d) && part[|d|] == '.'))
  }

  predicate GoodCharacters(part: string) {
    forall k :: 0 <= k < |part| ==>
      || ('a' <= part[k] <= 'z') || ('A' <= part[k] <= 'Z') || ('0' <= part[k] <= '9')
      || part[k] == '.' || part[k] == '_' || part[k] == '-'
  }

  lemma CharactersExactly(part: string)
    ensures GoodCharacters(part) <==> forall k :: 0 <= k < |part| ==> IsPartChar(part[k])
  {
  }

  predicate GoodPart(part: string) {
    && 1 <= |part| <= 100 && GoodCharacters(part)
    && part[|part| - 1] != '.' && !IsDevice(part) && !Alike(part, ".git")
  }

  lemma DevicesPlain()
    ensures forall d :: d in RESERVED ==> d != "" && forall k :: 0 <= k < |d| ==> !IsLower(d[k]) && d[k] != '.'
  {
  }

  lemma DeviceExactly(part: string)
    ensures ToUpper(part)[..IndexOf(ToUpper(part), '.')] in RESERVED <==> IsDevice(part)
  {
    DevicesPlain();
    var upper := ToUpper(part);
    var n := IndexOf(upper, '.');
    UpperOfFront(part, n);
    hide RESERVED;
    var stem := part[..n];
    if upper[..n] in RESERVED {
      var d := upper[..n];
      UpperAlike(stem, d);
      assert n == |part| ==> stem == part;
    }
    if IsDevice(part) {
      var d :| d in RESERVED && (Alike(part, d) || (|d| < |part| && Alike(part[..|d|], d) && part[|d|] == '.'));
      DeviceStem(part, d);
      UpperAlike(part[..|d|], d);
      UpperOfFront(part, |d|);
    }
  }

  /** The stem of a device's name ends where the name does. */
  lemma DeviceStem(part: string, d: string)
    requires d != "" && forall k :: 0 <= k < |d| ==> !IsLower(d[k]) && d[k] != '.'
    requires Alike(part, d) || (|d| < |part| && Alike(part[..|d|], d) && part[|d|] == '.')
    ensures IndexOf(ToUpper(part), '.') == |d| && |d| <= |part| && Alike(part[..|d|], d)
  {
    var upper := ToUpper(part);
    assert |d| == |part| ==> part[..|d|] == part;
    UpperAlike(part[..|d|], d);
    UpperOfFront(part, |d|);
    assert upper[..|d|] == d;
    if |d| < |part| {
      IndexOfUnique(upper, '.', |d|);
    } else {
      assert upper == d;
    }
  }

  lemma PartExactly(part: string)
    ensures ValidPart(part) <==> GoodPart(part)
  {
    DeviceExactly(part);
    LowerAlike(part, ".git");
    CharactersExactly(part);
    hide GoodCharacters, IsPartChar, IsDevice, Alike, ToUpper, ToLower, IndexOf, RESERVED;
  }

  // ----- paths -----

  function Joined(parts: seq<string>): string
    requires parts != []
  {
    if |parts| == 1 then parts[0] else parts[0] + ("/" + Joined(parts[1..]))
  }

  lemma {:induction false} JoinedSplit(s: string)
    ensures Joined(SplitOn(s, '/')) == s
    decreases |s|
  {
    var k := IndexOf(s, '/');
    if k < |s| {
      JoinedSplit(s[k + 1..]);
      assert SplitOn(s, '/')[1..] == SplitOn(s[k + 1..], '/');
      assert s == s[..k] + ("/" + s[k + 1..]);
    }
  }

  lemma {:induction false} SplitJoined(parts: seq<string>)
    requires parts != [] && forall k :: 0 <= k < |parts| ==> '/' !in parts[k]
    ensures SplitOn(Joined(parts), '/') == parts
    decreases |parts|
  {
    var s := Joined(parts);
    if |parts| == 1 {
      assert s[..IndexOf(s, '/')] == s;
    } else {
      SplitJoined(parts[1..]);
      assert s[..|parts[0]|] == parts[0] && s[|parts[0]| + 1..] == Joined(parts[1..]);
      IndexOfUnique(s, '/', |parts[0]|);
    }
  }

  /** At most 240 characters, made of good components with slashes between them. */
  ghost predicate GoodPath(path: string) {
    |path| <= 240 && exists parts :: IsPathOf(path, parts)
  }

  predicate IsPathOf(path: string, parts: seq<string>) {
    parts != [] && path == Joined(parts) && forall k :: 0 <= k < |parts| ==> GoodPart(parts[k])
  }

  lemma NoSlash(part: string)
    requires GoodPart(part)
    ensures '/' !in part && part != "" && part[0] != '/'
  {
    hide IsDevice, Alike;
  }

  /** The paths that pass are exactly those; in particular none is absolute, and none climbs. */
  lemma PathExactly(path: string)
    ensures ValidPath(path) <==> GoodPath(path)
  {
    hide *;
    if ValidPath(path) {
      ValidIsGood(path);
    }
    if GoodPath(path) {
      GoodIsValid(path);
    }
  }

  lemma ValidIsGood(path: string)
    requires ValidPath(path)
    ensures GoodPath(path)
  {
    hide ValidPart, GoodPart, SplitOn, Joined;
    JoinedSplit(path);
    AllGood(SplitOn(path, '/'));
    assert IsPathOf(path, SplitOn(path, '/'));
  }

  lemma GoodIsValid(path: string)
    requires GoodPath(path)
    ensures ValidPath(path)
  {
    hide GoodPart, ValidPart, SplitOn, Joined;
    var parts :| IsPathOf(path, parts);
    forall k | 0 <= k < |parts|
      ensures '/' !in parts[k] && ValidPart(parts[k])
    {
      NoSlash(parts[k]);
      PartExactly(parts[k]);
    }
    SplitJoined(parts);
    NoSlash(parts[0]);
    JoinedFirst(parts);
  }

  lemma JoinedFirst(parts: seq<string>)
    requires parts != [] && parts[0] != ""
    ensures Joined(parts) != "" && Joined(parts)[0] == parts[0][0]
  {
  }

  lemma AllGood(parts: seq<string>)
    requires forall k :: 0 <= k < |parts| ==> ValidPart(parts[k])
    ensures forall k :: 0 <= k < |parts| ==> GoodPart(parts[k])
  {
    hide GoodPart, ValidPart;
    forall k | 0 <= k < |parts|
      ensures GoodPart(parts[k])
    {
      PartExactly(parts[k]);
    }
  }

  // ----- contents -----

  /** The contents that pass: text of at most 256 KiB without a NUL that is no pointer to large-file storage. */
  lemma ContentExactly(content: Bytes)
    ensures ValidContent(content) <==>
      && |content| <= 262144 && (forall k :: 0 <= k < |content| ==> content[k] as int != 0)
      && !("version https://git-lfs.github.com/spec/v1" <= content)
      && exists text :: AllScalars(text) && content == Encoded(text)
  {
    Utf8Exactly(content);
    hide Utf8, Encoded, AllScalars;
    assert LFS_PREFIX <= content <==> StartsWith(content, LFS_PREFIX);
  }
}
