/**
 * The placeholder-image link of a report row: the upper-cased first letters
 * of the first and last space-separated words of the name.
 */
module Initials {

  import opened Wrappers

  const ImageUrlPrefix := "https://dummyimage.com/300x200/000/fff.png&text="

  /**
   * Python's `s.split(' ')`: the pieces between single spaces. A leading,
   * trailing or doubled space gives an empty piece.
   */
  function Split(s: string): (words: seq<string>)
    ensures |words| >= 1
    ensures forall k :: 0 <= k < |words| ==> ' ' !in words[k]
  {
    if s == [] then [""]
    else
      var rest := Split(s[1..]);
      if s[0] == ' ' then [""] + rest else [[s[0]] + rest[0]] + rest[1..]
  }

  /** Python's `' '.join(words)`. */
  function Join(words: seq<string>): string
    requires |words| >= 1
  {
    if |words| == 1 then words[0] else words[0] + " " + Join(words[1..])
  }

  /** Joining the pieces with single spaces gives back the name. */
  lemma {:induction false} JoinSplit(s: string)
    ensures Join(Split(s)) == s
  {
    if s != [] {
      var rest := Split(s[1..]);
      JoinSplit(s[1..]);
      if s[0] == ' ' {
        assert Join(Split(s)) == "" + " " + Join(rest);
      } else if |rest| == 1 {
        assert Join(Split(s)) == [s[0]] + rest[0];
      } else {
        assert rest == [rest[0]] + rest[1..];
        assert Join(rest) == rest[0] + " " + Join(rest[1..]);
        assert Join(Split(s)) == ([s[0]] + rest[0]) + " " + Join(rest[1..]);
      }
    }
  }

  /** A space-free prefix joins the first piece of what follows it. */
  lemma {:induction false} SplitAppend(w: string, u: string)
    requires ' ' !in w
    ensures Split(w + u) == [w + Split(u)[0]] + Split(u)[1..]
  {
    if w == [] {
      assert w + u == u;
      assert w + Split(u)[0] == Split(u)[0];
      assert Split(u) == [Split(u)[0]] + Split(u)[1..];
    } else {
      assert (w + u)[0] == w[0] && (w + u)[1..] == w[1..] + u;
      SplitAppend(w[1..], u);
      assert [w[0]] + (w[1..] + Split(u)[0]) == w + Split(u)[0];
    }
  }

  /** Splitting words that hold no space and were joined by single spaces gives the words back. */
  lemma {:induction false} SplitJoin(words: seq<string>)
    requires |words| >= 1
    requires forall k :: 0 <= k < |words| ==> ' ' !in words[k]
    ensures Split(Join(words)) == words
  {
    if |words| == 1 {
      SplitAppend(words[0], "");
      assert words[0] + "" == words[0];
    } else {
      var tail := Join(words[1..]);
      SplitJoin(words[1..]);
      SplitAppend(words[0], " " + tail);
      assert Join(words) == words[0] + (" " + tail);
      assert (" " + tail)[1..] == tail;
      assert Split(" " + tail) == [""] + Split(tail);
      assert words[0] + "" == words[0];
      assert words == [words[0]] + words[1..];
    }
  }

  /** Python's `c.upper()` on ASCII letters; other characters are left as they are. */
  function Upper(c: char): char
  {
    if 'a' <= c <= 'z' then (c as int - 32) as char else c
  }

  predicate NoEmptyWord(words: seq<string>)
  {
    forall k :: 0 <= k < |words| ==> |words[k]| > 0
  }

  /**
   * get_initials_link: the upper-cased first letter of the first and of the
   * last word (the same word twice for a one-word name). Taking the first
   * letter of an empty word raises IndexError in the source: here None.
   * In terms of the name itself, a link exists exactly for well-spaced names,
   * and then its initials are the name's first character and the first
   * character after its last space, upper-cased.
   */
  function InitialsLink(name: string): (link: Option<string>)
    ensures link.Some? <==> WellSpaced(name)
    ensures WellSpaced(name) ==>
      link == Some(ImageUrlPrefix + [Upper(name[0]), Upper(name[LastWordStart(name)])])
  {
    var words := Split(name);
    NoEmptyWordIffWellSpaced(name);
    if !NoEmptyWord(words) then None
    else
      assert words[0][0] == name[0];
      LastPiece(name, LastWordStart(name));
      Some(ImageUrlPrefix + [Upper(words[0][0]), Upper(words[|words| - 1][0])])
  }

  /** Non-empty, no space at either end and no two spaces in a row. */
  predicate WellSpaced(s: string)
  {
    && |s| > 0 && s[0] != ' ' && s[|s| - 1] != ' '
    && forall i :: 0 <= i < |s| - 1 && s[i] == ' ' ==> s[i + 1] != ' '
  }

  /** A name "x y…" is well spaced exactly when "y…" is. */
  lemma WellSpacedAfterSpace(s: string)
    requires |s| >= 2 && s[0] != ' ' && s[1] == ' '
    ensures WellSpaced(s) <==> WellSpaced(s[2..])
  {
    var tail := s[2..];
    if WellSpaced(s) {
      assert |s| > 2;
      forall i | 0 <= i < |tail| - 1 && tail[i] == ' '
        ensures tail[i + 1] != ' '
      {
        assert s[i + 2] == ' ';
      }
      assert tail[0] == s[2] && tail[|tail| - 1] == s[|s| - 1];
    }
    if WellSpaced(tail) {
      forall i | 0 <= i < |s| - 1 && s[i] == ' '
        ensures s[i + 1] != ' '
      {
        if i >= 2 {
          assert tail[i - 2] == ' ';
        }
      }
    }
  }

  /** A name "xy…" whose second character is not a space is well spaced exactly when "y…" is. */
  lemma WellSpacedAfterLetter(s: string)
    requires |s| >= 2 && s[0] != ' ' && s[1] != ' '
    ensures WellSpaced(s) <==> WellSpaced(s[1..])
  {
    var tail := s[1..];
    if WellSpaced(s) {
      forall i | 0 <= i < |tail| - 1 && tail[i] == ' '
        ensures tail[i + 1] != ' '
      {
        assert s[i + 1] == ' ';
      }
      assert tail[|tail| - 1] == s[|s| - 1];
    }
    if WellSpaced(tail) {
      forall i | 0 <= i < |s| - 1 && s[i] == ' '
        ensures s[i + 1] != ' '
      {
        assert tail[i - 1] == ' ';
      }
    }
  }

  lemma NoEmptyWordCons(w: string, words: seq<string>)
    ensures NoEmptyWord([w] + words) <==> |w| > 0 && NoEmptyWord(words)
  {
    var all := [w] + words;
    assert all[0] == w;
    assert forall k :: 0 <= k < |words| ==> words[k] == all[k + 1];
    assert forall k :: 1 <= k < |all| ==> all[k] == words[k - 1];
  }

  /** Every piece of the split is non-empty exactly when the name is well spaced. */
  lemma {:induction false} NoEmptyWordIffWellSpaced(s: string)
    ensures NoEmptyWord(Split(s)) <==> WellSpaced(s)
  {
    if s == [] || s[0] == ' ' {
      assert Split(s)[0] == "";
    } else if |s| == 1 {
      assert s[1..] == [];
      assert Split(s) == [[s[0]] + ""];
    } else if s[1] == ' ' {
      var tail := s[2..];
      NoEmptyWordIffWellSpaced(tail);
      WellSpacedAfterSpace(s);
      assert s[1..][1..] == tail && s[1..][0] == ' ';
      assert Split(s) == [[s[0]] + ""] + Split(tail);
      NoEmptyWordCons([s[0]] + "", Split(tail));
    } else {
      var tail := s[1..];
      NoEmptyWordIffWellSpaced(tail);
      WellSpacedAfterLetter(s);
      var rest := Split(tail);
      assert rest[0] == [s[1]] + Split(tail[1..])[0];
      assert Split(s) == [[s[0]] + rest[0]] + rest[1..];
      assert rest == [rest[0]] + rest[1..];
      NoEmptyWordCons([s[0]] + rest[0], rest[1..]);
      NoEmptyWordCons(rest[0], rest[1..]);
    }
  }

  /** The index just after the last space, 0 when there is none. */
  function LastWordStart(s: string): (j: nat)
    ensures j <= |s| && ' ' !in s[j..]
    ensures j > 0 ==> s[j - 1] == ' '
  {
    if s == [] then 0
    else if s[|s| - 1] == ' ' then |s|
    else
      var j := LastWordStart(s[..|s| - 1]);
      assert s[j..] == s[..|s| - 1][j..] + [s[|s| - 1]];
      j
  }

  lemma {:induction false} SplitWithSpace(s: string)
    requires ' ' in s
    ensures |Split(s)| >= 2
  {
    if s[0] != ' ' {
      SplitWithSpace(s[1..]);
    }
  }

  /** The last piece of the split is what follows the last space. */
  lemma {:induction false} LastPiece(s: string, j: nat)
    requires j <= |s| && (j == 0 || s[j - 1] == ' ') && ' ' !in s[j..]
    ensures Split(s)[|Split(s)| - 1] == s[j..]
  {
    if s == [] {
    } else if j == 0 {
      SplitAppend(s, "");
      assert s + "" == s;
    } else {
      var tail := s[1..];
      assert tail[j - 1..] == s[j..];
      LastPiece(tail, j - 1);
      if s[0] != ' ' {
        assert tail[j - 2] == ' ';
        SplitWithSpace(tail);
      }
    }
  }

  /** A one-word name repeats its initial: "alice" gives "AA". */
  lemma OneWordRepeatsInitial()
    ensures InitialsLink("alice") == Some(ImageUrlPrefix + "AA")
  {
    SplitAppend("alice", "");
    assert "alice" + "" == "alice";
  }
}
