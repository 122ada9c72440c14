/** The few Python string operations the backend relies on: `str.strip`, `os.path.basename`,
    and the case-insensitive `.mp3` suffix test. */
module PyText {
  import opened Seqs

  /** Python's `str.isspace()` for one character: exactly the characters `str.strip()` removes. */
  predicate IsSpace(c: char) {
    || ('\U{0009}' <= c <= '\U{000D}')
    || ('\U{001C}' <= c <= '\U{0020}')
    || c == '\U{0085}' || c == '\U{00A0}' || c == '\U{1680}'
    || ('\U{2000}' <= c <= '\U{200A}')
    || c == '\U{2028}' || c == '\U{2029}' || c == '\U{202F}' || c == '\U{205F}' || c == '\U{3000}'
  }

  /** The number of white-space characters `s.lstrip()` removes. */
  function LeadingSpaces(s: string): (n: nat)
    ensures n <= |s|
    ensures forall i :: 0 <= i < n ==> IsSpace(s[i])
    ensures n < |s| ==> !IsSpace(s[n])
  {
    if s != [] && IsSpace(s[0]) then 1 + LeadingSpaces(s[1..]) else 0
  }

  /** The number of white-space characters `s.rstrip()` removes. */
  function TrailingSpaces(s: string): (n: nat)
    ensures n <= |s|
    ensures forall i :: |s| - n <= i < |s| ==> IsSpace(s[i])
    ensures n < |s| ==> !IsSpace(s[|s| - n - 1])
  {
    if s != [] && IsSpace(s[|s| - 1]) then 1 + TrailingSpaces(s[..|s| - 1]) else 0
  }

  /** `s.strip()` */
  function Strip(s: string): string {
    var t := s[LeadingSpaces(s)..];
    t[..|t| - TrailingSpaces(t)]
  }

  /** `s.strip()` is the slice of `s` left between its leading and its trailing white space:
      empty exactly when `s` is blank, otherwise starting and ending with a non-space. */
  lemma {:induction false} StripShape(s: string)
    ensures var r := Strip(s); var lo := LeadingSpaces(s);
      && (r == [] <==> forall i :: 0 <= i < |s| ==> IsSpace(s[i]))
      && (r != [] ==> !IsSpace(r[0]) && !IsSpace(r[|r| - 1]))
      && lo + |r| <= |s| && r == s[lo..lo + |r|]
      && (forall i :: 0 <= i < lo ==> IsSpace(s[i]))
      && (forall i :: lo + |r| <= i < |s| ==> IsSpace(s[i]))
  {
    var lo := LeadingSpaces(s);
    var t := s[lo..];
    var k := TrailingSpaces(t);
    var r := t[..|t| - k];
    assert r == s[lo..lo + |r|];
    forall i | lo + |r| <= i < |s| ensures IsSpace(s[i]) {
      assert s[i] == t[i - lo];
    }
    if r != [] {
      assert r[0] == t[0] == s[lo];
      assert r[|r| - 1] == t[|t| - k - 1];
    } else {
      assert forall i :: 0 <= i < |s| ==> IsSpace(s[i]);
    }
  }

  /** Stripping a string that already has no surrounding white space changes nothing. */
  lemma {:induction false} StripIdempotent(s: string)
    ensures Strip(Strip(s)) == Strip(s)
  {
    var r := Strip(s);
    StripShape(s);
    if r != [] {
      assert LeadingSpaces(r) == 0;
      assert TrailingSpaces(r) == 0;
    }
  }

  /** `os.path.basename(p)` on POSIX: what follows the last `/`. */
  function Basename(p: string): string {
    if p == [] || p[|p| - 1] == '/' then [] else Basename(p[..|p| - 1]) + [p[|p| - 1]]
  }

  /** The base name is the longest suffix of the path without a `/`. */
  lemma {:induction false} BasenameShape(p: string)
    ensures var r := Basename(p);
      && |r| <= |p| && r == p[|p| - |r|..]
      && '/' !in r
      && (|r| < |p| ==> p[|p| - |r| - 1] == '/')
  {
    if p != [] && p[|p| - 1] != '/' {
      BasenameShape(p[..|p| - 1]);
    }
  }

  predicate AllDots(s: string) {
    forall i :: 0 <= i < |s| ==> s[i] == '.'
  }

  /** `os.path.splitext(name)[1]` for a name without `/`: the text from the last dot on, unless
      that dot is preceded by dots only (a leading-dot name such as `.bashrc` has no extension). */
  function Extension(name: string): string {
    if name == [] then []
    else if name[|name| - 1] == '.' then (if AllDots(name[..|name| - 1]) then [] else ".")
    else
      var e := Extension(name[..|name| - 1]);
      if e == [] then [] else e + [name[|name| - 1]]
  }

  /** The extension is a suffix that starts with its only dot and follows a character other than
      a dot; there is none exactly when every dot of the name has only dots before it. */
  lemma {:induction false} ExtensionShape(name: string)
    ensures var r := Extension(name);
      && |r| <= |name| && r == name[|name| - |r|..]
      && (r != [] ==> r[0] == '.' && '.' !in r[1..] && !AllDots(name[..|name| - |r|]))
      && (r == [] ==> forall i :: 0 <= i < |name| && name[i] == '.' ==> AllDots(name[..i]))
  {
    if name != [] {
      var init, c := name[..|name| - 1], name[|name| - 1];
      assert name == init + [c];
      ExtensionShape(init);
      var r := Extension(name);
      if c == '.' {
        if AllDots(init) {
          forall i | 0 <= i < |name| && name[i] == '.' ensures AllDots(name[..i]) {
            assert name[..i] == init[..i];
          }
        } else {
          assert name[..|name| - 1] == init;
        }
      } else {
        var e := Extension(init);
        if e == [] {
          forall i | 0 <= i < |name| && name[i] == '.' ensures AllDots(name[..i]) {
            assert i < |init| && init[i] == '.';
            assert name[..i] == init[..i];
          }
        } else {
          assert r == e + [c];
          assert name[..|name| - |r|] == init[..|init| - |e|];
          assert r[1..] == e[1..] + [c];
        }
      }
    }
  }

  /** `str.lower()` on one character, for the ASCII letters (the only ones that matter below). */
  function LowerChar(c: char): char {
    if 'A' <= c <= 'Z' then (c as int + 32) as char else c
  }

  function Lower(s: string): (r: string)
    ensures |r| == |s|
  {
    seq(|s|, i requires 0 <= i < |s| => LowerChar(s[i]))
  }

  /** `s.lower().endswith('.mp3')` */
  predicate EndsWithMp3(s: string) {
    |s| >= 4 && Lower(s[|s| - 4..]) == ".mp3"
  }

  /** Appending `.mp3` always yields a name that ends with `.mp3`. */
  lemma {:induction false} AppendMp3(s: string)
    ensures EndsWithMp3(s + ".mp3")
  {
    var t := s + ".mp3";
    assert t[|t| - 4..] == ".mp3";
  }
}
