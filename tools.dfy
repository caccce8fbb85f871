/** The NUL-terminated string helpers: counting the characters before the terminator, and
    concatenating two counted buffers into a destination buffer with a terminator. */
module Tools {

  const NUL: char := '\0'

  /** The buffer holds a terminator somewhere. */
  ghost predicate HasNul(s: seq<char>)
  {
    exists i :: 0 <= i < |s| && s[i] == NUL
  }

  /** The C length of a terminated buffer: the position of its first NUL. */
  function CLength(s: seq<char>): (n: nat)
    requires HasNul(s)
    ensures n < |s| && s[n] == NUL
    ensures forall i :: 0 <= i < n ==> s[i] != NUL
  {
    if s[0] == NUL then 0
    else
      assert HasNul(s[1..]) by {
        var i :| 0 <= i < |s| && s[i] == NUL;
        assert s[1..][i - 1] == NUL;
      }
      1 + CLength(s[1..])
  }

  /** A buffer that starts with NUL-free text followed by a NUL has the text's length. */
  lemma {:induction false} CLengthOfTerminated(text: seq<char>, rest: seq<char>)
    requires forall i :: 0 <= i < |text| ==> text[i] != NUL
    ensures HasNul(text + [NUL] + rest)
    ensures CLength(text + [NUL] + rest) == |text|
  {
    var s := text + [NUL] + rest;
    assert s[|text|] == NUL;
    assert forall i :: 0 <= i < |text| ==> s[i] == text[i];
  }

  /** Counts characters until the terminator. */
  method StringLength(str: array<char>) returns (count: nat)
    requires HasNul(str[..])
    ensures count == CLength(str[..])
    ensures count < str.Length && str[count] == NUL
    ensures forall i :: 0 <= i < count ==> str[i] != NUL
  {
    count := 0;
    while str[count] != NUL
      invariant count <= CLength(str[..])
      decreases CLength(str[..]) - count
    {
      count := count + 1;
    }
  }

  /** Copies `sourceACount` characters of `sourceA`, then `sourceBCount` characters of
      `sourceB`, then a NUL, to the start of `dest`. `destCount` is not consulted: the
      destination must have room for all of it. */
  method CatStrings(sourceACount: nat, sourceA: array<char>,
                    sourceBCount: nat, sourceB: array<char>,
                    destCount: nat, dest: array<char>)
    requires sourceACount <= sourceA.Length && sourceBCount <= sourceB.Length
    requires sourceACount + sourceBCount + 1 <= dest.Length
    requires dest != sourceA && dest != sourceB
    modifies dest
    ensures dest[..sourceACount] == sourceA[..sourceACount]
    ensures dest[sourceACount..sourceACount + sourceBCount] == sourceB[..sourceBCount]
    ensures dest[sourceACount + sourceBCount] == NUL
    ensures dest[..sourceACount + sourceBCount + 1] == sourceA[..sourceACount] + sourceB[..sourceBCount] + [NUL]
    ensures dest[sourceACount + sourceBCount + 1..] == old(dest[sourceACount + sourceBCount + 1..])
  {
    var d := 0;
    var index := 0;
    while index < sourceACount
      invariant 0 <= index <= sourceACount && d == index
      invariant dest[..d] == sourceA[..index]
      invariant dest[sourceACount + sourceBCount + 1..] == old(dest[sourceACount + sourceBCount + 1..])
    {
      dest[d] := sourceA[index];
      d := d + 1;
      index := index + 1;
    }
    index := 0;
    while index < sourceBCount
      invariant 0 <= index <= sourceBCount && d == sourceACount + index
      invariant dest[..sourceACount] == sourceA[..sourceACount]
      invariant dest[sourceACount..d] == sourceB[..index]
      invariant dest[sourceACount + sourceBCount + 1..] == old(dest[sourceACount + sourceBCount + 1..])
    {
      dest[d] := sourceB[index];
      d := d + 1;
      index := index + 1;
    }
    dest[d] := NUL;
    assert dest[..d + 1] == dest[..sourceACount] + dest[sourceACount..d] + [dest[d]];
  }

  /** When neither copied part holds a NUL, the result of CatStrings is a C string of length
      `sourceACount + sourceBCount`. */
  lemma {:induction false} CatLength(a: seq<char>, b: seq<char>, rest: seq<char>)
    requires forall i :: 0 <= i < |a| ==> a[i] != NUL
    requires forall i :: 0 <= i < |b| ==> b[i] != NUL
    ensures HasNul(a + b + [NUL] + rest)
    ensures CLength(a + b + [NUL] + rest) == |a| + |b|
  {
    var text := a + b;
    assert forall i :: 0 <= i < |text| ==> text[i] != NUL by {
      forall i | 0 <= i < |text|
        ensures text[i] != NUL
      {
        if i < |a| {
          assert text[i] == a[i];
        } else {
          assert text[i] == b[i - |a|];
        }
      }
    }
    CLengthOfTerminated(text, rest);
  }
}
