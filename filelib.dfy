/**
 * Storage placement and token generation (internal/lib/filelib/file.lib.go):
 * the size tier of a blob, the extension of a file name, the path a blob is
 * stored under, and the random file token.
 */
module FileLib {
  import opened Config

  // ---------------------------------------------------------------------
  // Size tiers
  // ---------------------------------------------------------------------

  /** Blobs strictly larger than this many bytes go to the large tier. */
  const Threshold: int := SaveSplit * MB

  /** The tier directory of a blob of `size` bytes. */
  function GetPathBySize(size: int): (tier: string)
    ensures tier == LargePath <==> size > Threshold
    ensures tier == SmallPath <==> size <= Threshold
  {
    if size > Threshold then LargePath else SmallPath
  }

  // ---------------------------------------------------------------------
  // Extensions
  // ---------------------------------------------------------------------

  /** strings.LastIndex for a single character: -1 when `c` does not occur. */
  function LastIndex(s: string, c: char): (i: int)
    ensures -1 <= i < |s|
    ensures i == -1 <==> c !in s
    ensures 0 <= i ==> s[i] == c && forall j :: i < j < |s| ==> s[j] != c
  {
    if |s| == 0 then -1
    else if s[|s| - 1] == c then |s| - 1
    else
      var init := s[..|s| - 1];
      assert s == init + [s[|s| - 1]];
      LastIndex(init, c)
  }

  /** `t` is a suffix of `s`. */
  predicate IsSuffix(t: string, s: string) {
    |t| <= |s| && s[|s| - |t|..] == t
  }

  /**
   * The extension of `filename`, dot included: the suffix that starts at the
   * last '.'. A name without '.' makes the Go slice expression panic, so the
   * callers must check for one first.
   */
  function GetExtension(filename: string): (ext: string)
    requires '.' in filename
    ensures IsSuffix(ext, filename)
    ensures |ext| >= 1 && ext[0] == '.' && '.' !in ext[1..]
  {
    var i := LastIndex(filename, '.');
    assert filename[i..][1..] == filename[i + 1..];
    filename[i..]
  }

  /** The extension is the only suffix that starts with '.' and holds no other '.'. */
  lemma ExtensionIsUnique(filename: string, ext: string)
    requires '.' in filename
    requires IsSuffix(ext, filename) && |ext| >= 1 && ext[0] == '.' && '.' !in ext[1..]
    ensures ext == GetExtension(filename)
  {
    var i := LastIndex(filename, '.');
    var k := |filename| - |ext|;
    assert filename[k] == '.' by { assert filename[k..][0] == filename[k]; }
  }

  // ---------------------------------------------------------------------
  // Blob paths
  // ---------------------------------------------------------------------

  /** filepath.Join of a directory and one path component. */
  function Join(dir: string, name: string): string {
    dir + "/" + name
  }

  /** `path` is the directory `tier`, a separator, then `id` followed by `ext`. */
  predicate PathOf(path: string, tier: string, id: string, ext: string) {
    && |path| == |tier| + 1 + |id| + |ext|
    && path[..|tier|] == tier
    && path[|tier|] == '/'
    && path[|tier| + 1..][..|id|] == id
    && IsSuffix(ext, path)
  }

  /**
   * The path a blob is stored under: its tier directory, a separator, then
   * one component that starts with the record id and ends with the
   * extension of the uploaded file name.
   */
  function GetPathname(size: int, id: string, filename: string): string
    requires '.' in filename
  {
    Join(GetPathBySize(size), id + GetExtension(filename))
  }

  /** Every blob path has the shape PathOf describes. */
  lemma PathnameParts(size: int, id: string, filename: string)
    requires '.' in filename
    ensures PathOf(GetPathname(size, id, filename), GetPathBySize(size), id, GetExtension(filename))
  {
    var tier, name := GetPathBySize(size), id + GetExtension(filename);
    assert (tier + "/" + name)[|tier| + 1..] == name;
  }

  /**
   * Two blob paths of records with '.'-free ids agree only when the ids, the
   * tiers and the extensions agree, so distinct ids never share a blob.
   */
  lemma PathnameInjective(size1: int, id1: string, name1: string, size2: int, id2: string, name2: string)
    requires '.' in name1 && '.' in name2
    requires '.' !in id1 && '.' !in id2
    requires GetPathname(size1, id1, name1) == GetPathname(size2, id2, name2)
    ensures id1 == id2
    ensures GetPathBySize(size1) == GetPathBySize(size2)
    ensures GetExtension(name1) == GetExtension(name2)
  {
    var p := GetPathname(size1, id1, name1);
    PathnameParts(size1, id1, name1);
    PathnameParts(size2, id2, name2);
    var t1, t2 := GetPathBySize(size1), GetPathBySize(size2);
    var e1, e2 := GetExtension(name1), GetExtension(name2);
    assert |t1| == |t2| == 13;
    assert t1 == p[..13] == t2;
    var c1, c2 := id1 + e1, id2 + e2;
    assert p[14..] == c1 by { assert p == t1 + "/" + c1; }
    assert p[14..] == c2 by { assert p == t2 + "/" + c2; }
    assert id1 == c1[..|id1|] == c2[..|id2|] == id2;
    assert e1 == c1[|id1|..] == c2[|id2|..] == e2;
  }

  // ---------------------------------------------------------------------
  // Tokens
  // ---------------------------------------------------------------------

  const Lower: string := "abcdefghijklmnopqrstuvwxyz"
  const Upper: string := "ABCDEFGHIJKLMNOPQRSTUVWXYZ"
  const Digits: string := "0123456789"

  /** The token alphabet: lower-case letters, then upper-case letters, then digits. */
  const Charset: string := Lower + Upper + Digits

  /** The alphabet spelled out as one literal, as the source writes it. */
  lemma CharsetSpelledOut()
    ensures Charset == "abcdefghijklmnopqrstuvwxyzABCDEFGHIJKLMNOPQRSTUVWXYZ0123456789"
  {
    LettersSpelledOut();
  }

  lemma LettersSpelledOut()
    ensures Lower + Upper == "abcdefghijklmnopqrstuvwxyzABCDEFGHIJKLMNOPQRSTUVWXYZ"
  {
  }

  lemma LowerAt(k: int) requires 0 <= k < 26 ensures Lower[k] as int == 'a' as int + k {}
  lemma UpperAt(k: int) requires 0 <= k < 26 ensures Upper[k] as int == 'A' as int + k {}
  lemma DigitAt(k: int) requires 0 <= k < 10 ensures Digits[k] as int == '0' as int + k {}

  predicate IsAlphaNum(c: char) {
    'a' <= c <= 'z' || 'A' <= c <= 'Z' || '0' <= c <= '9'
  }

  /** Position of an alphanumeric character in the alphabet; -1 for any other character. */
  function CharIndex(c: char): int {
    if 'a' <= c <= 'z' then c as int - 'a' as int
    else if 'A' <= c <= 'Z' then c as int - 'A' as int + 26
    else if '0' <= c <= '9' then c as int - '0' as int + 52
    else -1
  }

  /** Every alphabet position holds an alphanumeric character that sits at that position only. */
  lemma CharsetAt(k: int)
    requires 0 <= k < |Charset|
    ensures IsAlphaNum(Charset[k]) && CharIndex(Charset[k]) == k
  {
    if k < 26 {
      LowerAt(k);
      assert Charset[k] == Lower[k];
    } else if k < 52 {
      UpperAt(k - 26);
      assert Charset[k] == Upper[k - 26];
    } else {
      DigitAt(k - 52);
      assert Charset[k] == Digits[k - 52];
    }
  }

  /** The alphabet is exactly the 62 alphanumeric characters. */
  lemma CharsetCovers(c: char)
    requires IsAlphaNum(c)
    ensures 0 <= CharIndex(c) < |Charset| && Charset[CharIndex(c)] == c
  {
    var k := CharIndex(c);
    if 'a' <= c <= 'z' {
      LowerAt(k);
      assert Charset[k] == Lower[k];
    } else if 'A' <= c <= 'Z' {
      UpperAt(k - 26);
      assert Charset[k] == Upper[k - 26];
    } else {
      DigitAt(k - 52);
      assert Charset[k] == Digits[k - 52];
    }
  }

  /** Draws of rand.Int(len(charset)): each is an alphabet position. */
  predicate ValidDraws(draws: seq<int>) {
    forall i :: 0 <= i < |draws| ==> 0 <= draws[i] < |Charset|
  }

  /** The token spelled by a sequence of draws. */
  function TokenOf(draws: seq<int>): (token: string)
    requires ValidDraws(draws)
    ensures |token| == |draws|
    ensures forall i :: 0 <= i < |token| ==> token[i] == Charset[draws[i]] && IsAlphaNum(token[i])
  {
    if |draws| == 0 then []
    else
      CharsetAt(draws[0]);
      [Charset[draws[0]]] + TokenOf(draws[1..])
  }

  /** The draws that spell an alphanumeric string. */
  function DrawsOf(token: string): (draws: seq<int>)
    requires forall i :: 0 <= i < |token| ==> IsAlphaNum(token[i])
    ensures |draws| == |token| && ValidDraws(draws)
  {
    if |token| == 0 then []
    else
      CharsetCovers(token[0]);
      [CharIndex(token[0])] + DrawsOf(token[1..])
  }

  /**
   * TokenOf is a bijection between draw sequences and alphanumeric strings of
   * the same length: every token is spelled by exactly one sequence of draws.
   */
  lemma {:induction false} TokenRoundTrip(draws: seq<int>, token: string)
    requires ValidDraws(draws)
    requires forall i :: 0 <= i < |token| ==> IsAlphaNum(token[i])
    ensures DrawsOf(TokenOf(draws)) == draws
    ensures TokenOf(DrawsOf(token)) == token
    decreases |draws| + |token|
  {
    if |draws| > 0 {
      CharsetAt(draws[0]);
      assert TokenOf(draws)[1..] == TokenOf(draws[1..]);
      TokenRoundTrip(draws[1..], []);
    }
    if |token| > 0 {
      CharsetCovers(token[0]);
      assert DrawsOf(token)[1..] == DrawsOf(token[1..]);
      TokenRoundTrip([], token[1..]);
    }
  }

  /**
   * CreateToken: fills a TokenLength-byte buffer, one draw per position, and
   * returns it as a string.
   */
  method CreateToken(draws: seq<int>) returns (token: string)
    requires |draws| == TokenLength && ValidDraws(draws)
    ensures |token| == TokenLength
    ensures forall i :: 0 <= i < |token| ==> IsAlphaNum(token[i])
    ensures token == TokenOf(draws)
  {
    var b := new char[TokenLength];
    for i := 0 to b.Length
      invariant forall j :: 0 <= j < i ==> b[j] == Charset[draws[j]]
    {
      b[i] := Charset[draws[i]];
    }
    token := b[..];
    assert token == TokenOf(draws);
  }
}
