/** Python's `str.split("/")` and `"/".join(...)`, and the last segment of a URL. */
module Strings {

  /** Python's `"/".join(parts)`. */
  function JoinSep(parts: seq<string>): string
    decreases |parts|
  {
    if |parts| == 0 then ""
    else if |parts| == 1 then parts[0]
    else parts[0] + "/" + JoinSep(parts[1..])
  }

  /** Python's `s.split("/")`: never empty, since `"".split("/") == [""]`. */
  function Split(s: string): (parts: seq<string>)
    ensures |parts| >= 1
    decreases |s|
  {
    if s == [] then [""]
    else if s[0] == '/' then [""] + Split(s[1..])
    else
      var rest := Split(s[1..]);
      [[s[0]] + rest[0]] + rest[1..]
  }

  /** No segment contains the separator, and there is one segment more than
      the string has separators. */
  lemma {:induction false} SplitSegments(s: string)
    ensures forall i :: 0 <= i < |Split(s)| ==> '/' !in Split(s)[i]
    ensures |Split(s)| == multiset(s)['/'] + 1
    decreases |s|
  {
    if s != [] {
      SplitSegments(s[1..]);
      assert s == [s[0]] + s[1..];
      assert multiset(s) == multiset{s[0]} + multiset(s[1..]);
      var rest := Split(s[1..]);
      if s[0] != '/' {
        var parts := Split(s);
        assert parts[0] == [s[0]] + rest[0];
        forall i | 0 <= i < |parts| ensures '/' !in parts[i] {
          if i > 0 { assert parts[i] == rest[i]; }
        }
      } else {
        var parts := Split(s);
        forall i | 0 <= i < |parts| ensures '/' !in parts[i] {
          if i > 0 { assert parts[i] == rest[i - 1]; }
        }
      }
    }
  }

  /** Joining the segments back gives the original string. */
  lemma {:induction false} JoinSplit(s: string)
    ensures JoinSep(Split(s)) == s
    decreases |s|
  {
    if s != [] {
      JoinSplit(s[1..]);
      var rest := Split(s[1..]);
      var parts := Split(s);
      if s[0] == '/' {
        assert parts == [""] + rest;
        assert parts[1..] == rest;
        assert JoinSep(parts) == "" + "/" + JoinSep(rest);
      } else {
        assert parts == [[s[0]] + rest[0]] + rest[1..];
        assert s == [s[0]] + s[1..];
        if |rest| > 1 {
          assert parts[1..] == rest[1..];
          assert JoinSep(rest) == rest[0] + "/" + JoinSep(rest[1..]);
          assert JoinSep(parts) == parts[0] + "/" + JoinSep(rest[1..]);
        } else {
          assert JoinSep(parts) == parts[0];
        }
      }
    }
  }

  /** A string without a separator splits into itself. */
  lemma {:induction false} SplitPlain(p: string)
    requires '/' !in p
    ensures Split(p) == [p]
    decreases |p|
  {
    if p != [] {
      assert '/' !in p[1..] by {
        forall k | 0 <= k < |p[1..]| ensures p[1..][k] != '/' { assert p[1..][k] == p[k + 1]; }
      }
      SplitPlain(p[1..]);
      assert p == [p[0]] + p[1..];
    }
  }

  /** Splitting at the first separator, when the text before it has none. */
  lemma {:induction false} SplitAtFirst(p: string, t: string)
    requires '/' !in p
    ensures Split(p + "/" + t) == [p] + Split(t)
    decreases |p|
  {
    if p == [] {
      assert p + "/" + t == "/" + t;
      assert ("/" + t)[1..] == t;
    } else {
      var s := p + "/" + t;
      assert s[0] == p[0];
      assert s[1..] == p[1..] + "/" + t;
      assert '/' !in p[1..] by {
        forall k | 0 <= k < |p[1..]| ensures p[1..][k] != '/' { assert p[1..][k] == p[k + 1]; }
      }
      SplitAtFirst(p[1..], t);
      assert [p[0]] + p[1..] == p;
    }
  }

  /** Splitting a join gives back the segments: the converse of JoinSplit. */
  lemma {:induction false} SplitJoin(parts: seq<string>)
    requires |parts| >= 1
    requires forall i :: 0 <= i < |parts| ==> '/' !in parts[i]
    ensures Split(JoinSep(parts)) == parts
    decreases |parts|
  {
    if |parts| == 1 {
      SplitPlain(parts[0]);
    } else {
      assert '/' !in parts[0];
      SplitJoin(parts[1..]);
      SplitAtFirst(parts[0], JoinSep(parts[1..]));
      assert [parts[0]] + parts[1..] == parts;
    }
  }

  /** `url.split("/")[-1]`: the last `/`-separated segment. */
  function Basename(url: string): string
  {
    var parts := Split(url);
    parts[|parts| - 1]
  }

  /** The basename never contains the separator. */
  lemma BasenameHasNoSlash(url: string)
    ensures '/' !in Basename(url)
  {
    SplitSegments(url);
  }

  /** The basename is the part of the URL after its last `/` (the whole URL when
      there is none): it contains no `/`, it is a suffix of the URL, and what
      precedes it is empty or ends in `/`. These facts determine it uniquely. */
  lemma {:induction false} BasenameIsLastSegment(url: string)
    ensures var b := Basename(url);
      && '/' !in b
      && |b| <= |url|
      && url[|url| - |b|..] == b
      && (|b| < |url| ==> url[|url| - |b| - 1] == '/')
    decreases |url|
  {
    SplitSegments(url);
    if url != [] {
      BasenameIsLastSegment(url[1..]);
      var rest := Split(url[1..]);
      if url[0] != '/' {
        if |rest| == 1 {
          JoinSplit(url[1..]);
          assert Basename(url) == [url[0]] + url[1..] == url;
        } else {
          NotLastSegment(url[1..]);
        }
      }
    }
  }

  /** With more than one segment, the last one is shorter than the string. */
  lemma NotLastSegment(s: string)
    requires |Split(s)| > 1
    ensures |Basename(s)| < |s|
  {
    var parts := Split(s);
    JoinSplit(s);
    assert s == parts[0] + "/" + JoinSep(parts[1..]);
    LastOfJoin(parts[1..]);
  }

  /** The join ends with the last segment. */
  lemma {:induction false} LastOfJoin(parts: seq<string>)
    requires |parts| >= 1
    ensures |parts[|parts| - 1]| <= |JoinSep(parts)|
    decreases |parts|
  {
    if |parts| > 1 {
      LastOfJoin(parts[1..]);
    }
  }

  /** A URL without `/` is its own basename. */
  lemma BasenameWithoutSlash(url: string)
    requires '/' !in url
    ensures Basename(url) == url
  {
    SplitPlain(url);
  }

  /** A URL ending in `/` has the empty basename. */
  lemma BasenameAfterTrailingSlash(url: string)
    requires |url| > 0 && url[|url| - 1] == '/'
    ensures Basename(url) == ""
  {
    BasenameIsLastSegment(url);
  }

  /** Any suffix that follows a `/` (or is the whole URL) and has no `/` of its
      own is the basename. */
  lemma BasenameUnique(url: string, b: string)
    requires '/' !in b && |b| <= |url| && url[|url| - |b|..] == b
    requires |b| < |url| ==> url[|url| - |b| - 1] == '/'
    ensures Basename(url) == b
  {
    BasenameIsLastSegment(url);
  }
}
