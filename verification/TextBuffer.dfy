/** A zero-terminated character buffer that grows by appends. */
module TextBuffer {
  import opened Text

  /** The buffer holds s up to its terminator. */
  ghost predicate Contains(buf: array<char>, s: string)
    reads buf
  {
    |s| < buf.Length && buf[..|s|] == s && buf[|s|] == '\0' && '\0' !in s
  }

  method Strlen(buf: array<char>, ghost s: string) returns (n: nat)
    requires Contains(buf, s)
    ensures n == |s|
  {
    n := 0;
    while buf[n] != '\0'
      invariant n <= |s|
      decreases |s| - n
    {
      n := n + 1;
    }
    assert forall k :: 0 <= k < |s| ==> buf[..|s|][k] == buf[k] && s[k] in s;
  }

  /** Appends t, cut off at n characters, unless only one is left. */
  method Append(buf: array<char>, t: string, n: nat, ghost s: string)
    requires Contains(buf, s) && '\0' !in t
    requires |Appended(s, t, n)| < buf.Length
    modifies buf
    ensures Contains(buf, Appended(s, t, n))
  {
    var l1 := Strlen(buf, s);
    if l1 + 1 < n {
      var count := if |t| < n - l1 then |t| else n - l1;
      var k := 0;
      while k < count
        invariant 0 <= k <= count
        invariant buf[..l1 + k] == s + t[..k]
      {
        buf[l1 + k] := t[k];
        assert buf[..l1 + k + 1] == buf[..l1 + k] + [t[k]];
        assert t[..k + 1] == t[..k] + [t[k]];
        k := k + 1;
      }
      buf[l1 + count] := '\0';
    }
  }

  lemma {:induction false} OneMoreBlank(k: nat)
    ensures Blanks(k) + " " == Blanks(k + 1)
  {
    if k > 0 {
      OneMoreBlank(k - 1);
      assert " " + (Blanks(k - 1) + " ") == " " + Blanks(k - 1) + " ";
    }
  }

  /** Appends blanks until the text reaches a column. */
  method Pad(buf: array<char>, col: nat, n: nat, ghost s: string)
    requires Contains(buf, s) && PaddingEnds(s, col, n)
    requires |Padded(s, col)| < buf.Length
    modifies buf
    ensures Contains(buf, Padded(s, col))
  {
    PaddingEndsExactly(s, col, n);
    ghost var text, k := s, 0;
    var length := Strlen(buf, text);
    assert s + Blanks(0) == s;
    while length < col
      invariant 0 <= k && length == |text| == |s| + k && text == s + Blanks(k)
      invariant Contains(buf, text)
      invariant k == 0 || length <= col
    {
      assert " "[..1] == " ";
      Append(buf, " ", n, text);
      OneMoreBlank(k);
      assert text + " " == s + (Blanks(k) + " ");
      text, k := text + " ", k + 1;
      length := Strlen(buf, text);
    }
    assert Blanks(col - |s|) == Blanks(k);
  }
}
