/**
 * Login handles: `owner.toLowerCase().split(' ').map(word => word[0]).join('')`.
 *
 * `word[0]` of an empty word (two spaces in a row, or a leading or trailing
 * space) is `undefined`, which `join('')` renders as the empty string, so an
 * empty word contributes nothing.  Lower-casing is modelled on ASCII letters.
 */
module Usernames {

  predicate IsUpper(c: char) { 'A' <= c <= 'Z' }

  function LowerChar(c: char): (r: char)
    ensures !IsUpper(r)
    ensures r == ' ' <==> c == ' '
  {
    if IsUpper(c) then (c as int - 'A' as int + 'a' as int) as char else c
  }

  /** `toLowerCase()`, restricted to ASCII: same length, spaces where they were, no capitals. */
  function ToLower(s: string): (r: string)
    ensures |r| == |s|
    ensures forall i :: 0 <= i < |r| ==> r[i] == LowerChar(s[i])
  {
    seq(|s|, i requires 0 <= i < |s| => LowerChar(s[i]))
  }

  /** `split(' ')`: the maximal space-free pieces between single spaces; never empty. */
  function Split(s: string): (words: seq<string>)
    ensures |words| >= 1
    ensures forall k :: 0 <= k < |words| ==> ' ' !in words[k]
  {
    if s == [] then [[]]
    else
      var rest := Split(s[1..]);
      if s[0] == ' ' then [[]] + rest
      else [[s[0]] + rest[0]] + rest[1..]
  }

  /** `join(' ')`, the inverse of `Split`. */
  function Join(words: seq<string>): string
  {
    if words == [] then []
    else if |words| == 1 then words[0]
    else words[0] + " " + Join(words[1..])
  }

  /** `map(word => word[0]).join('')`: the first character of every non-empty word. */
  function Initials(words: seq<string>): string
  {
    if words == [] then []
    else (if words[0] == [] then [] else [words[0][0]]) + Initials(words[1..])
  }

  /** The handle `createUserNames` stores on an account. */
  function Username(owner: string): (r: string)
    ensures |r| <= |owner|
    ensures forall i :: 0 <= i < |r| ==> r[i] != ' ' && !IsUpper(r[i])
  {
    var lower := ToLower(owner);
    var words := Split(lower);
    InitialsShape(words);
    SplitLength(lower);
    assert forall c :: c in Initials(words) ==> c in lower;
    assert forall c :: c in lower ==> !IsUpper(c) by {
      forall c | c in lower ensures !IsUpper(c) {
        var j :| 0 <= j < |lower| && lower[j] == c;
      }
    }
    Initials(words)
  }

  function CountNonEmpty(words: seq<string>): nat
  {
    if words == [] then 0 else (if words[0] == [] then 0 else 1) + CountNonEmpty(words[1..])
  }

  function TotalLength(words: seq<string>): nat
  {
    if words == [] then 0 else |words[0]| + TotalLength(words[1..])
  }

  // ----- Independent reference definition: a left-to-right scan -----

  /**
   * The characters of `s` that start a word: not a space, and either first
   * or right after a space.  `atStart` says whether the previous character
   * was a space (or there was none).
   */
  function WordStartsFrom(s: string, atStart: bool): string
  {
    if s == [] then []
    else (if atStart && s[0] != ' ' then [s[0]] else []) + WordStartsFrom(s[1..], s[0] == ' ')
  }

  function WordStarts(s: string): string
  {
    WordStartsFrom(s, true)
  }

  // ----- Lemmas -----

  lemma {:induction false} InitialsShape(words: seq<string>)
    requires forall k :: 0 <= k < |words| ==> ' ' !in words[k]
    ensures |Initials(words)| == CountNonEmpty(words) <= TotalLength(words)
    ensures forall i :: 0 <= i < |Initials(words)| ==> Initials(words)[i] != ' '
    ensures forall c :: c in Initials(words) ==> exists k :: 0 <= k < |words| && c in words[k]
  {
    if words != [] {
      InitialsShape(words[1..]);
      var r := Initials(words[1..]);
      forall c | c in Initials(words)
        ensures exists k :: 0 <= k < |words| && c in words[k]
      {
        if c in r {
          var k :| 0 <= k < |words[1..]| && c in words[1..][k];
          assert c in words[k + 1];
        } else {
          assert c in words[0];
        }
      }
    }
  }

  /** Splitting keeps every non-space character: the pieces are no longer than the input. */
  lemma {:induction false} SplitLength(s: string)
    ensures TotalLength(Split(s)) <= |s|
    ensures forall k :: 0 <= k < |Split(s)| ==> forall c :: c in Split(s)[k] ==> c in s
  {
    if s != [] {
      SplitLength(s[1..]);
      var rest := Split(s[1..]);
      if s[0] != ' ' {
        assert TotalLength(rest) == |rest[0]| + TotalLength(rest[1..]);
      }
    }
  }

  /** Joining the pieces of a split gives back the string. */
  lemma {:induction false} JoinSplit(s: string)
    ensures Join(Split(s)) == s
  {
    if s != [] {
      JoinSplit(s[1..]);
      var rest := Split(s[1..]);
      if s[0] == ' ' {
        assert Join([[]] + rest) == [] + " " + Join(rest) by {
          assert ([[]] + rest)[1..] == rest;
        }
      } else if |rest| == 1 {
        assert s == [s[0]] + s[1..];
      } else {
        assert Join(rest) == rest[0] + " " + Join(rest[1..]);
        assert ([[s[0]] + rest[0]] + rest[1..])[1..] == rest[1..];
        assert s == [s[0]] + s[1..];
      }
    }
  }

  /** A string without spaces is a single word. */
  lemma {:induction false} SplitWord(w: string)
    requires ' ' !in w
    ensures Split(w) == [w]
  {
    if w != [] {
      assert ' ' !in w[1..] by { assert forall c :: c in w[1..] ==> c in w; }
      SplitWord(w[1..]);
      assert [w[0]] + w[1..] == w;
    }
  }

  /** Splitting a word followed by a space splits off exactly that word. */
  lemma {:induction false} SplitWordThenSpace(w: string, t: string)
    requires ' ' !in w
    ensures Split(w + " " + t) == [w] + Split(t)
  {
    if w == [] {
      assert w + " " + t == [' '] + t;
      assert (w + " " + t)[1..] == t;
    } else {
      assert ' ' !in w[1..] by { assert forall c :: c in w[1..] ==> c in w; }
      SplitWordThenSpace(w[1..], t);
      assert (w + " " + t)[1..] == w[1..] + " " + t;
      assert [w[0]] + w[1..] == w;
    }
  }

  /** Splitting a join of space-free words gives back the words. */
  lemma {:induction false} SplitJoin(words: seq<string>)
    requires |words| >= 1
    requires forall k :: 0 <= k < |words| ==> ' ' !in words[k]
    ensures Split(Join(words)) == words
  {
    if |words| == 1 {
      SplitWord(words[0]);
    } else {
      SplitJoin(words[1..]);
      SplitWordThenSpace(words[0], Join(words[1..]));
      assert [words[0]] + words[1..] == words;
    }
  }

  /**
   * The split-and-take-initials pipeline agrees with the scan.  The second
   * clause covers a string whose first word already started earlier.
   */
  lemma {:induction false} InitialsAreWordStarts(s: string)
    ensures Initials(Split(s)) == WordStartsFrom(s, true)
    ensures Initials(Split(s)[1..]) == WordStartsFrom(s, false)
  {
    if s != [] {
      InitialsAreWordStarts(s[1..]);
      var rest := Split(s[1..]);
      if s[0] == ' ' {
        assert ([[]] + rest)[1..] == rest;
      } else {
        var words := [[s[0]] + rest[0]] + rest[1..];
        assert words[1..] == rest[1..];
      }
    }
  }

  /** The handle is the first letter, lower-cased, of each word of the owner, in order. */
  lemma UsernameIsWordStarts(owner: string)
    ensures Username(owner) == WordStarts(ToLower(owner))
  {
    InitialsAreWordStarts(ToLower(owner));
  }

  /** One character per non-empty word. */
  lemma UsernameLength(owner: string)
    ensures |Username(owner)| == CountNonEmpty(Split(ToLower(owner)))
  {
    InitialsShape(Split(ToLower(owner)));
  }

  /** A two-word owner such as "Jonas Schmedtmann" gets the two initials, lower-cased ("js"). */
  lemma TwoWordOwner(first: string, last: string)
    requires first != [] && last != []
    requires ' ' !in first && ' ' !in last
    ensures Username(first + " " + last) == [LowerChar(first[0]), LowerChar(last[0])]
  {
    var lf, ll := ToLower(first), ToLower(last);
    assert ToLower(first + " " + last) == lf + " " + ll;
    assert ' ' !in lf by {
      forall c | c in lf ensures c != ' ' { var j :| 0 <= j < |lf| && lf[j] == c; }
    }
    assert ' ' !in ll by {
      forall c | c in ll ensures c != ' ' { var j :| 0 <= j < |ll| && ll[j] == c; }
    }
    SplitWordThenSpace(lf, ll);
    SplitWord(ll);
    assert Split(lf + " " + ll) == [lf, ll];
    assert Initials([lf, ll]) == [lf[0]] + Initials([ll]) by { assert [lf, ll][1..] == [ll]; }
    assert Initials([ll]) == [ll[0]] by { assert [ll][1..] == []; }
  }
}
