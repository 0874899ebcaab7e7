/** The white-space trimming that recognised text goes through. */
module SpeechText {
  predicate IsSpace(c: char) {
    var n := c as int;
    || 9 <= n <= 13 || n == 32 || n == 160 || n == 0x1680 || 0x2000 <= n <= 0x200A
    || n == 0x2028 || n == 0x2029 || n == 0x202F || n == 0x205F || n == 0x3000 || n == 0xFEFF
  }

  function TrimStart(s: string): (r: string)
    ensures r == "" || !IsSpace(r[0])
    ensures s != "" && !IsSpace(s[0]) ==> r == s
  {
    if s != "" && IsSpace(s[0]) then TrimStart(s[1..]) else s
  }

  function TrimEnd(s: string): (r: string)
    ensures r == "" || !IsSpace(r[|r| - 1])
    ensures r <= s
  {
    if s != "" && IsSpace(s[|s| - 1]) then TrimEnd(s[..|s| - 1]) else s
  }

  function Trim(s: string): (r: string)
    ensures r == "" || (!IsSpace(r[0]) && !IsSpace(r[|r| - 1]))
  {
    TrimEnd(TrimStart(s))
  }

  /** Trimming is at both ends only: what is removed is white space, and the rest stays whole. */
  lemma {:induction false} TrimKeepsTheMiddle(s: string)
    ensures exists i, j :: 0 <= i <= j <= |s| && Trim(s) == s[i..j]
                && (forall k :: 0 <= k < i || j <= k < |s| ==> IsSpace(s[k]))
  {
    var i := StartOf(s);
    var j := EndOf(s[i..]);
    assert s[i..][..j] == s[i..i + j];
    forall k | 0 <= k < i || i + j <= k < |s| ensures IsSpace(s[k]) {
      if k >= i {
        assert s[i..][k - i] == s[k];
      }
    }
  }

  lemma {:induction false} StartOf(s: string) returns (i: nat)
    ensures i <= |s| && TrimStart(s) == s[i..] && (forall k :: 0 <= k < i ==> IsSpace(s[k]))
  {
    i := 0;
    if s != "" && IsSpace(s[0]) {
      var rest := StartOf(s[1..]);
      i := rest + 1;
      assert s[1..][rest..] == s[i..];
      forall k | 0 <= k < i ensures IsSpace(s[k]) {
        if k > 0 {
          assert s[1..][k - 1] == s[k];
        }
      }
    }
  }

  lemma {:induction false} EndOf(s: string) returns (j: nat)
    ensures j <= |s| && TrimEnd(s) == s[..j] && (forall k :: j <= k < |s| ==> IsSpace(s[k]))
  {
    j := |s|;
    if s != "" && IsSpace(s[|s| - 1]) {
      j := EndOf(s[..|s| - 1]);
      assert s[..|s| - 1][..j] == s[..j];
      forall k | j <= k < |s| ensures IsSpace(s[k]) {
        if k < |s| - 1 {
          assert s[..|s| - 1][k] == s[k];
        }
      }
    }
  }
}
