/** Two display helpers of the web client: the initials shown in an avatar
    and the truncation of long previews. */
module TextUtils {
  import opened Common

  /** `s.split(" ")`: the pieces between single spaces, empty pieces
      included; the empty string gives one empty piece. */
  function Split(s: string): (words: seq<string>)
    ensures |words| >= 1
    ensures forall i :: 0 <= i < |words| ==> ' ' !in words[i]
    decreases |s|
  {
    if s == [] then [[]]
    else if s[0] == ' ' then [[]] + Split(s[1..])
    else
      var rest := Split(s[1..]);
      [[s[0]] + rest[0]] + rest[1..]
  }

  /** `words.join(" ")`. */
  function Join(words: seq<string>): string
    requires |words| >= 1
    decreases |words|
  {
    if |words| == 1 then words[0] else words[0] + " " + Join(words[1..])
  }

  /** Splitting loses nothing: joining the pieces gives the input back. */
  lemma {:induction false} JoinSplit(s: string)
    ensures Join(Split(s)) == s
    decreases |s|
  {
    if s != [] {
      JoinSplit(s[1..]);
      var rest := Split(s[1..]);
      if s[0] != ' ' {
        var words := Split(s);
        assert words[1..] == rest[1..];
        if |rest| == 1 {
          assert s == [s[0]] + rest[0];
        } else {
          assert Join(rest) == rest[0] + " " + Join(rest[1..]);
          assert s == [s[0]] + s[1..];
        }
      } else {
        assert Split(s)[1..] == rest;
        assert s == [s[0]] + s[1..];
      }
    }
  }

  /** `words.map(w => w.charAt(0)).join("")`: an empty word gives "". */
  function Heads(words: seq<string>): (r: string)
    ensures |r| <= |words|
    decreases |words|
  {
    if words == [] then []
    else (if words[0] == [] then [] else [words[0][0]]) + Heads(words[1..])
  }

  lemma {:induction false} HeadsAppend(a: seq<string>, b: seq<string>)
    ensures Heads(a + b) == Heads(a) + Heads(b)
    decreases |a|
  {
    if a == [] {
      assert a + b == b;
    } else {
      assert (a + b)[1..] == a[1..] + b;
      HeadsAppend(a[1..], b);
    }
  }

  /** The characters that start a word: not a space, and first or right
      after a space. */
  function WordStarts(s: string, atStart: bool): string
    decreases |s|
  {
    if s == [] then []
    else (if atStart && s[0] != ' ' then [s[0]] else []) + WordStarts(s[1..], s[0] == ' ')
  }

  /** The first letters of the pieces are exactly the word-start
      characters; empty pieces from repeated spaces add nothing. */
  lemma {:induction false} HeadsAreWordStarts(s: string)
    ensures Heads(Split(s)) == WordStarts(s, true)
    ensures Heads(Split(s)[1..]) == WordStarts(s, false)
    decreases |s|
  {
    if s != [] {
      HeadsAreWordStarts(s[1..]);
      var rest := Split(s[1..]);
      if s[0] == ' ' {
        assert Split(s) == [[]] + rest;
        HeadsAppend([[]], rest);
      } else {
        var words := Split(s);
        assert words == [[s[0]] + rest[0]] + rest[1..];
        HeadsAppend([words[0]], rest[1..]);
        assert words[1..] == rest[1..];
      }
    }
  }

  function Min(a: int, b: int): int { if a <= b then a else b }

  /** `getInitials`: the first characters of the space-separated pieces,
      upper-cased, at most two. */
  function GetInitials(name: string): (r: string)
    ensures |r| <= 2
    ensures forall i :: 0 <= i < |r| ==> !IsAsciiLower(r[i])
  {
    var all := ToUpper(Heads(Split(name)));
    all[..Min(2, |all|)]
  }

  /** The initials are the first two word-start characters, upper-cased. */
  lemma InitialsSpec(name: string)
    ensures var starts := WordStarts(name, true);
            GetInitials(name) == ToUpper(starts)[..Min(2, |starts|)]
    ensures GetInitials("") == ""
    ensures name != "" && name[0] != ' ' ==> GetInitials(name)[0] == UpperChar(name[0])
  {
    HeadsAreWordStarts(name);
  }

  /** Where `text.slice(0, end)` stops, for a number `end`: a negative
      end counts from the back, and the end is clamped to the length. */
  function SliceEnd(length: nat, end: int): (k: nat)
    ensures k <= length
    ensures 0 <= end ==> k == Min(end, length)
    ensures end < 0 ==> k == (if length + end > 0 then length + end else 0)
  {
    if end >= 0 then Min(end, length)
    else if length + end > 0 then length + end
    else 0
  }

  /** `truncateText`. */
  function TruncateText(text: string, maxLength: int): (r: string)
    ensures |text| <= maxLength ==> r == text
    ensures |text| > maxLength >= 0 ==> r == text[..maxLength] + "..." && |r| == maxLength + 3
    ensures maxLength < 0 ==> r == text[..SliceEnd(|text|, maxLength)] + "..."
    ensures maxLength >= 0 ==> text[..Min(maxLength, |text|)] <= r
  {
    if |text| <= maxLength then text else text[..SliceEnd(|text|, maxLength)] + "..."
  }
}
