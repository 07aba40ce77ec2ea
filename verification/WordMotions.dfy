/** Motions by word over a text, where a word is a run of characters of one class. */
module WordMotions {
  datatype Class = Class0 | Newline | Space | Special | Word

  type Classify = char -> Class

  predicate IsSpecial(ch: char) {
    ch in {
      '"', '\'', '(', ')', '{', '}', '[', ']', '<', '>', '-', '+', '*', '/', '!', '@', '#', '$', '%', '^', '&', ':',
      ';', '?', '|', '=', '\\', '.', ','
    }
  }

  function WordClassify(ch: char): Class {
    if ch == ' ' || ch == '\t' || ch == '\n' then Space else if IsSpecial(ch) then Special else Word
  }

  function WordClassifyNewlineStop(ch: char): Class {
    if ch == '\n' then Newline else WordClassify(ch)
  }

  /** For words in the wide sense; what counts as a space is decided elsewhere. */
  function WideClassify(isSpace: char -> bool): Classify {
    ch => if isSpace(ch) then Space else Word
  }

  function WideClassifyNewlineStop(isSpace: char -> bool): Classify {
    ch => if ch == '\n' then Newline else if isSpace(ch) then Space else Word
  }

  function Words(newlineStop: bool): Classify {
    if newlineStop then WordClassifyNewlineStop else WordClassify
  }

  function WideWords(isSpace: char -> bool, newlineStop: bool): Classify {
    if newlineStop then WideClassifyNewlineStop(isSpace) else WideClassify(isSpace)
  }

  /** The class of a character; the end of the text counts as a null character. */
  function At(c: Classify, text: string, k: nat): Class
    requires k <= |text|
  {
    c(if k < |text| then text[k] else '\0')
  }

  /** A word starts here; every newline that stops is a word of its own. */
  predicate Start(c: Classify, text: string, k: int) {
    0 <= k < |text| && At(c, text, k) != Space
    && (k == 0 || At(c, text, k - 1) != At(c, text, k) || At(c, text, k) == Newline)
  }

  /** The last character of a word. */
  predicate End(c: Classify, text: string, k: int) {
    0 <= k < |text| && At(c, text, k) != Space && At(c, text, k) != Newline && At(c, text, k) != At(c, text, k + 1)
  }

  /** No class is the one that stands for no class. */
  ghost predicate Sane(c: Classify) {
    forall ch :: c(ch) != Class0
  }

  /** Without stops at newlines, newlines are spaces like any other. */
  ghost predicate Stopless(c: Classify) {
    forall ch :: c(ch) != Newline
  }

  /** Words of either kind are run by classes that are classes, and only stops at newlines have a class of their own. */
  lemma WordsSane(newlineStop: bool)
    ensures Sane(Words(newlineStop)) && (Stopless(Words(newlineStop)) <==> !newlineStop)
  {
    assert WordClassifyNewlineStop('\n') == Newline;
  }

  lemma WideSane(isSpace: char -> bool, newlineStop: bool)
    ensures Sane(WideWords(isSpace, newlineStop)) && (Stopless(WideWords(isSpace, newlineStop)) <==> !newlineStop)
  {
    assert WideClassifyNewlineStop(isSpace)('\n') == Newline;
  }

  /** The punctuation of ASCII apart from the underscore, the backquote and the tilde. */
  predicate Punctuation(ch: char) {
    '!' <= ch <= '/' || ':' <= ch <= '@' || '[' <= ch <= '^' || '{' <= ch <= '}'
  }

  predicate Blank(ch: char, newlineStop: bool) {
    ch == ' ' || ch == '\t' || (ch == '\n' && !newlineStop)
  }

  /** Letters, digits and underscores only, at least one. */
  predicate NameBetween(text: string, from: int, to: int) {
    0 <= from < to <= |text| && forall k :: from <= k < to ==>
      'a' <= text[k] <= 'z' || 'A' <= text[k] <= 'Z' || '0' <= text[k] <= '9' || text[k] == '_'
  }

  /** Letters, digits and underscores, then blanks, at least one of each, up to a character that is none. */
  predicate NameThenBlanks(text: string, from: int, to: int, next: int, newlineStop: bool) {
    NameBetween(text, from, to) && to < next < |text| && !Blank(text[next], newlineStop)
    && forall k :: to <= k < next ==> Blank(text[k], newlineStop)
  }

  /** A stretch without white space begins here, or, with stops at newlines, a newline stands here. */
  predicate BeginsWide(isSpace: char -> bool, newlineStop: bool, text: string, k: int) {
    0 <= k < |text|
    && if newlineStop && text[k] == '\n' then true
       else !isSpace(text[k]) && (k == 0 || isSpace(text[k - 1]) || (newlineStop && text[k - 1] == '\n'))
  }

  lemma BeginsWideIs(isSpace: char -> bool, newlineStop: bool, text: string, k: int)
    ensures Start(WideWords(isSpace, newlineStop), text, k) == BeginsWide(isSpace, newlineStop, text, k)
  {
  }

  /** The class of every character: only blanks, punctuation and newlines that stop are not in words. */
  lemma ClassMeans(ch: char, newlineStop: bool)
    ensures (Words(newlineStop)(ch) == Space) <==> Blank(ch, newlineStop)
    ensures (Words(newlineStop)(ch) == Special) <==> Punctuation(ch)
    ensures (Words(newlineStop)(ch) == Newline) <==> (newlineStop && ch == '\n')
    ensures Words(newlineStop)(ch) != Class0
  {
  }

  lemma BetweenIn(text: string, from: int, to: int)
    requires NameBetween(text, from, to)
    ensures 0 <= from < to <= |text|
  {
  }

  /** No word starts inside a name. */
  lemma NameGoesOn(text: string, from: int, to: int, newlineStop: bool)
    requires NameBetween(text, from, to)
    ensures forall k :: from < k < to ==> !Start(Words(newlineStop), text, k)
  {
    hide Words;
    forall k | from <= k < to ensures Words(newlineStop)(text[k]) == Word {
      ClassMeans(text[k], newlineStop);
    }
  }

  lemma NamePunctuated(text: string, from: int, to: int, newlineStop: bool)
    requires NameBetween(text, from, to) && to < |text| && Punctuation(text[to])
    ensures Start(Words(newlineStop), text, to)
    ensures forall k :: from < k < to ==> !Start(Words(newlineStop), text, k)
  {
    hide Words;
    NameGoesOn(text, from, to, newlineStop);
    ClassMeans(text[to - 1], newlineStop);
    ClassMeans(text[to], newlineStop);
  }

  lemma NameSpaced(text: string, from: int, to: int, next: int, newlineStop: bool)
    requires NameThenBlanks(text, from, to, next, newlineStop)
    ensures from < next < |text| && Start(Words(newlineStop), text, next)
    ensures forall k :: from < k < next ==> !Start(Words(newlineStop), text, k)
  {
    hide Words;
    NameGoesOn(text, from, to, newlineStop);
    forall k | to <= k <= next ensures (Words(newlineStop)(text[k]) == Space) == (k < next) {
      ClassMeans(text[k], newlineStop);
    }
  }

  lemma NewlineStarts(text: string, k: int)
    requires 0 <= k < |text| && text[k] == '\n'
    ensures Start(Words(true), text, k)
  {
    hide Words;
    ClassMeans(text[k], true);
  }

  /** The character cannot be in a name: blanks, newlines and punctuation. */
  predicate EndsName(ch: char) {
    Punctuation(ch) || Blank(ch, false)
  }

  /**
   * A place where going on to the end of a word stops: before a newline that stops, or at the last character of
   * a later word.
   */
  predicate StopsForward(c: Classify, text: string, k: int, from: int) {
    0 <= from <= k && k + 1 < |text| && (At(c, text, k + 1) == Newline || (k > from && End(c, text, k)))
  }

  /** A character that stops going back to the end of a word. */
  predicate StopsBackward(c: Classify, text: string, k: int) {
    0 <= k < |text| && (End(c, text, k) || At(c, text, k) == Newline)
  }

  /**
   * A place where going back to the start of a word stops, after the start of the text: an earlier start, or
   * behind a newline.
   */
  predicate StartsBackward(c: Classify, text: string, k: int, from: int) {
    0 < k <= from <= |text| && ((k < from && Start(c, text, k)) || At(c, text, k - 1) == Newline)
  }

  /** A part of a name, more than its last character, up to what ends the name. */
  predicate NameUpTo(text: string, from: int, to: int) {
    NameBetween(text, from, to) && from + 1 < to < |text| && EndsName(text[to])
  }

  /** A part of a name from its start on, behind something else. */
  predicate NameFrom(text: string, begin: int, from: int) {
    NameBetween(text, begin, from) && begin > 0 && EndsName(text[begin - 1])
  }

  /** From inside a name, the end of the name is the next place that stops. */
  lemma NameEnded(text: string, from: nat, to: int, newlineStop: bool)
    requires NameUpTo(text, from, to)
    ensures StopsForward(Words(newlineStop), text, to - 1, from)
    ensures forall k: int :: from <= k < to - 1 ==> !StopsForward(Words(newlineStop), text, k, from)
  {
    hide Words;
    forall k | from <= k <= to
      ensures if k < to then Words(newlineStop)(text[k]) == Word else Words(newlineStop)(text[k]) != Word
    {
      ClassMeans(text[k], newlineStop);
    }
  }

  /** From behind a part of a name, the start of the name is the first place that stops. */
  lemma NameBegun(text: string, begin: int, from: nat, newlineStop: bool)
    requires NameFrom(text, begin, from)
    ensures StartsBackward(Words(newlineStop), text, begin, from)
    ensures forall k: int :: begin < k <= from ==> !StartsBackward(Words(newlineStop), text, k, from)
  {
    hide Words;
    forall k | begin - 1 <= k < from
      ensures if k < begin then Words(newlineStop)(text[k]) != Word else Words(newlineStop)(text[k]) == Word
    {
      ClassMeans(text[k], newlineStop);
    }
  }

  /** Blanks from behind `last` up to `from`, at least one, and `last` is neither blank nor a newline. */
  predicate BlanksBehind(text: string, last: int, from: int, newlineStop: bool) {
    0 <= last && last + 1 < from <= |text| && !Blank(text[last], false)
    && forall k :: last < k < from ==> Blank(text[k], newlineStop)
  }

  /** From behind blanks, the last character before them is where going back stops. */
  lemma BlanksSkipped(text: string, last: int, from: nat, newlineStop: bool)
    requires BlanksBehind(text, last, from, newlineStop)
    ensures 0 <= last < from <= |text| && End(Words(newlineStop), text, last)
    ensures LastStop(Words(newlineStop), text, from) == last
  {
    hide Words, LastStop;
    forall k | last <= k < from
      ensures (Words(newlineStop)(text[k]) == Space) == (k > last)
      ensures Words(newlineStop)(text[k]) != Newline
    {
      ClassMeans(text[k], newlineStop);
    }
    LastStopIs(Words(newlineStop), text, from, last);
  }

  /** The last character before `from` that stops going back, or -1. */
  function LastStop(c: Classify, text: string, from: nat): (j: int)
    requires from <= |text|
    ensures -1 <= j < from && (j >= 0 ==> StopsBackward(c, text, j))
    ensures forall k :: j < k < from ==> !StopsBackward(c, text, k)
  {
    if from == 0 then -1 else if StopsBackward(c, text, from - 1) then from - 1 else LastStop(c, text, from - 1)
  }

  lemma LastStopIs(c: Classify, text: string, from: nat, j: int)
    requires from <= |text| && -1 <= j < from && (j >= 0 ==> StopsBackward(c, text, j))
    requires forall k :: j < k < from ==> !StopsBackward(c, text, k)
    ensures LastStop(c, text, from) == j
  {
    var l := LastStop(c, text, from);
    assert j < l ==> !StopsBackward(c, text, l);
    assert l < j ==> !StopsBackward(c, text, j);
  }

  /** The character takes one byte in UTF-8. */
  predicate SingleByte(c: char) {
    c as int < 0x80
  }

  /** The string stands here. */
  predicate Matches(text: string, str: string, j: int) {
    0 <= j && j + |str| <= |text| && forall k :: 0 <= k < |str| ==> text[j + k] == str[k]
  }

  class TextIter {
    const text: string
    var offset: nat

    constructor (text: string, offset: nat)
      requires offset <= |text|
      ensures this.text == text && this.offset == offset
    {
      this.text, this.offset := text, offset;
    }

    predicate Valid()
      reads this
    {
      offset <= |text|
    }

    function GetChar(): char
      requires Valid()
      reads this
    {
      if offset < |text| then text[offset] else '\0'
    }

    /** Moves on by one; at the end, or when it is reached, this fails. */
    method ForwardChar() returns (ok: bool)
      requires Valid()
      modifies this
      ensures Valid() && offset == (if old(offset) < |text| then old(offset) + 1 else old(offset))
        && ok == (offset < |text|)
    {
      if offset < |text| {
        offset := offset + 1;
      }
      ok := offset < |text|;
    }

    /** Moves back by one; only at the very start this fails. */
    method BackwardChar() returns (ok: bool)
      requires Valid()
      modifies this
      ensures Valid() && ok == (old(offset) > 0) && offset == if ok then old(offset) - 1 else 0
    {
      ok := offset > 0;
      if ok {
        offset := offset - 1;
      }
    }

    /** Goes to the least later start of a word, or fails at the end. */
    method ForwardClassifiedStart(c: Classify) returns (found: bool)
      requires Valid() && Sane(c)
      modifies this
      ensures Valid() && (found ==> offset > old(offset) && Start(c, text, offset)) && (!found ==> offset == |text|)
      ensures forall k :: old(offset) < k < offset ==> !Start(c, text, k)
      ensures At(c, text, old(offset)) == Space ==> forall k :: old(offset) <= k < offset ==> At(c, text, k) == Space
    {
      var begin := c(GetChar());
      if begin == Space {
        while true
          invariant Valid() && old(offset) <= offset && (offset == |text| ==> offset == old(offset))
          invariant forall k :: old(offset) <= k <= offset ==> At(c, text, k) == Space
          decreases |text| - offset
        {
          var ok := ForwardChar();
          if !ok {
            return false;
          }
          var cur := c(GetChar());
          if cur != Space {
            return true;
          }
        }
      }
      var ok := ForwardChar();
      while ok
        invariant Valid() && ok == (offset < |text|) && old(offset) <= offset
        invariant ok ==> old(offset) < offset
        invariant ok ==> begin == if At(c, text, offset - 1) == Space then Class0 else At(c, text, offset - 1)
        invariant forall k :: old(offset) < k < offset ==> !Start(c, text, k)
        decreases |text| - offset
      {
        var cur := c(GetChar());
        if cur == Space {
          begin := Class0;
        } else if cur != begin || cur == Newline {
          return true;
        }
        ok := ForwardChar();
      }
      found := false;
    }

    /**
     * Goes to the first place from here on where going on to the end of a word stops, or fails at the end: that
     * is the last character of a later word that is not the end of the text, or, with stops at newlines, the
     * place before a newline, be it the place where it began.
     */
    method ForwardClassifiedEnd(c: Classify) returns (found: bool)
      requires Valid() && Sane(c)
      modifies this
      ensures Valid() && (found <==> exists k :: StopsForward(c, text, k, old(offset)))
      ensures if found then StopsForward(c, text, offset, old(offset)) else offset == |text|
      ensures forall k :: old(offset) <= k < offset ==> !StopsForward(c, text, k, old(offset))
    {
      var ok := ForwardChar();
      if !ok {
        return false;
      }
      if c(GetChar()) == Space {
        ok := ForwardClassifiedStart(c);
        if !ok {
          return false;
        }
      }
      var begin := c(GetChar());
      if begin == Newline {
        ok := BackwardChar();
        assert StopsForward(c, text, offset, old(offset));
        return true;
      }
      while true
        invariant old(offset) < offset < |text| && begin == At(c, text, offset) && begin != Space && begin != Newline
        invariant forall k :: old(offset) <= k < offset ==> !StopsForward(c, text, k, old(offset))
        decreases |text| - offset
      {
        ok := ForwardChar();
        if !ok {
          return false;
        }
        var cur := c(GetChar());
        if cur != begin || cur == Newline {
          ok := BackwardChar();
          assert StopsForward(c, text, offset, old(offset));
          return true;
        }
      }
      found := false;
    }

    /**
     * Goes back to the last character of the word before, or, with stops at newlines, to the place behind the
     * newline that comes first; it fails at the start. On a newline that stops it goes past that newline.
     */
    method BackwardClassifiedEnd(c: Classify) returns (found: bool)
      requires Valid() && Sane(c)
      modifies this
      ensures Valid()
      ensures At(c, text, old(offset)) == Newline ==>
        found && offset == if old(offset) < |text| then old(offset) + 1 else old(offset)
      ensures At(c, text, old(offset)) != Newline ==>
        var j := LastStop(c, text, old(offset));
        && (found <==> j >= 0)
        && offset == if !found then 0 else if End(c, text, j) then j else j + 1
      ensures At(c, text, old(offset)) == Space ==>
        (forall k :: offset < k <= old(offset) ==> At(c, text, k) == Space)
        && (!found || !End(c, text, offset) ==> At(c, text, offset) == Space)
    {
      var begin := c(GetChar());
      if begin == Newline {
        var _ := ForwardChar();
        return true;
      }
      while true
        invariant offset <= old(offset) <= |text|
        invariant begin == At(c, text, offset) && begin != Newline
        invariant forall k :: offset <= k < old(offset) ==> !StopsBackward(c, text, k)
        invariant At(c, text, old(offset)) == Space ==> forall k :: offset <= k <= old(offset) ==>
          At(c, text, k) == Space
        decreases offset
      {
        var ok := BackwardChar();
        if !ok {
          LastStopIs(c, text, old(offset), -1);
          return false;
        }
        var cur := c(GetChar());
        if cur == Newline {
          LastStopIs(c, text, old(offset), offset);
          ok := ForwardChar();
          return true;
        }
        if cur == Space {
          begin := Space;
        }
        if cur != begin && cur != Space {
          LastStopIs(c, text, old(offset), offset);
          return true;
        }
      }
      found := false;
    }

    /**
     * Goes back to the first place where going back to the start of a word stops: an earlier start, or, with stops at
     * newlines, the place behind a newline, be it the place where it began. It fails at the start of the text.
     */
    method BackwardClassifiedStart(c: Classify) returns (found: bool)
      requires Valid() && Sane(c)
      modifies this
      ensures Valid() && (found <==> exists k :: StartsBackward(c, text, k, old(offset)))
      ensures if found then StartsBackward(c, text, offset, old(offset)) else offset == 0
      ensures forall k :: offset < k <= old(offset) ==> !StartsBackward(c, text, k, old(offset))
    {
      hide LastStop;
      var ok := BackwardChar();
      if !ok {
        return false;
      }
      if c(GetChar()) == Space {
        ok := BackwardClassifiedEnd(c);
        if !ok {
          return false;
        }
      }
      var begin := c(GetChar());
      if begin == Newline {
        ok := ForwardChar();
        assert StartsBackward(c, text, offset, old(offset));
        return true;
      }
      while true
        invariant offset < old(offset) <= |text| && begin == At(c, text, offset) && begin != Newline
        invariant begin == Space ==> offset > 0 && At(c, text, offset - 1) == Newline
        invariant forall k :: offset < k <= old(offset) ==> !StartsBackward(c, text, k, old(offset))
        decreases offset
      {
        ok := BackwardChar();
        if !ok {
          return false;
        }
        var cur := c(GetChar());
        if cur != begin || cur == Newline {
          ok := ForwardChar();
          assert StartsBackward(c, text, offset, old(offset));
          return true;
        }
      }
      found := false;
    }

    /** Without stops at newlines: the least later start, if there is one. */
    method ForwardStart(c: Classify) returns (found: bool)
      requires Valid() && Sane(c) && Stopless(c)
      modifies this
      ensures Valid() && (found <==> exists k :: old(offset) < k && Start(c, text, k))
      ensures found ==> old(offset) < offset && Start(c, text, offset)
      ensures forall k :: old(offset) < k < offset ==> !Start(c, text, k)
    {
      found := ForwardClassifiedStart(c);
    }

    /** Without stops at newlines: the greatest earlier start, if there is one after the start of the text. */
    method BackwardStart(c: Classify) returns (found: bool)
      requires Valid() && Sane(c) && Stopless(c)
      modifies this
      ensures Valid() && (found <==> exists k :: 0 < k < old(offset) && Start(c, text, k))
      ensures found ==> 0 < offset < old(offset) && Start(c, text, offset)
      ensures !found ==> offset == 0
      ensures forall k :: offset < k < old(offset) ==> !Start(c, text, k)
    {
      found := BackwardClassifiedStart(c);
      assert forall k {:trigger Start(c, text, k)} ::
        StartsBackward(c, text, k, old(offset)) <==> 0 < k < old(offset) && Start(c, text, k);
    }

    /** From the start of a word, a step to the next word and a step back return there. */
    method ThereAndBack(c: Classify) returns (moved: bool)
      requires Valid() && Sane(c) && Stopless(c) && Start(c, text, offset)
      modifies this
      ensures Valid() && (moved <==> exists k :: old(offset) < k && Start(c, text, k))
      ensures moved ==> offset == old(offset)
    {
      moved := ForwardStart(c);
      if moved {
        var _ := BackwardStart(c);
      }
    }

    /** The same the other way round. */
    method BackAndThere(c: Classify) returns (moved: bool)
      requires Valid() && Sane(c) && Stopless(c) && Start(c, text, offset)
      modifies this
      ensures Valid() && (moved <==> exists k :: 0 < k < old(offset) && Start(c, text, k))
      ensures moved ==> offset == old(offset)
    {
      moved := BackwardStart(c);
      if moved {
        var _ := ForwardStart(c);
      }
    }

    method ForwardWordStart(newlineStop: bool) returns (found: bool)
      requires Valid()
      modifies this
      ensures Valid() && (found <==> exists k :: old(offset) < k && Start(Words(newlineStop), text, k))
      ensures if found then old(offset) < offset && Start(Words(newlineStop), text, offset) else offset == |text|
      ensures forall k :: old(offset) < k < offset ==> !Start(Words(newlineStop), text, k)
      ensures forall k :: NameBetween(text, old(offset), k) ==> k <= offset
      ensures forall k :: NameBetween(text, old(offset), k) && k < |text| && Punctuation(text[k]) ==>
        found && offset == k
      ensures forall k, m :: NameThenBlanks(text, old(offset), k, m, newlineStop) ==> found && offset == m
      ensures forall k :: newlineStop && old(offset) < k < |text| && text[k] == '\n' ==> found && offset <= k
    {
      WordsSane(newlineStop);
      if newlineStop {
        found := ForwardClassifiedStart(WordClassifyNewlineStop);
      } else {
        found := ForwardClassifiedStart(WordClassify);
      }
      hide *;
      ghost var from: nat := old(offset);
      forall k | NameBetween(text, from, k) ensures k <= offset {
        NameGoesOn(text, from, k, newlineStop);
        BetweenIn(text, from, k);
      }
      forall k | NameBetween(text, from, k) && k < |text| && Punctuation(text[k]) ensures found && offset == k {
        NamePunctuated(text, from, k, newlineStop);
        BetweenIn(text, from, k);
      }
      forall k, m | NameThenBlanks(text, from, k, m, newlineStop) ensures found && offset == m {
        NameSpaced(text, from, k, m, newlineStop);
      }
      forall k | newlineStop && from < k < |text| && text[k] == '\n' ensures found && offset <= k {
        NewlineStarts(text, k);
      }
    }

    /** Goes to the end of this word or the next one, or fails at the end of the text. */
    method ForwardWordEnd(newlineStop: bool) returns (found: bool)
      requires Valid()
      modifies this
      ensures Valid() && (found <==> exists k :: StopsForward(Words(newlineStop), text, k, old(offset)))
      ensures if found then StopsForward(Words(newlineStop), text, offset, old(offset)) else offset == |text|
      ensures forall k :: old(offset) <= k < offset ==> !StopsForward(Words(newlineStop), text, k, old(offset))
      ensures forall k :: NameUpTo(text, old(offset), k) ==> found && offset == k - 1
    {
      WordsSane(newlineStop);
      found := ForwardClassifiedEnd(Words(newlineStop));
      hide *;
      ghost var from: nat := old(offset);
      forall k | NameUpTo(text, from, k) ensures found && offset == k - 1 {
        NameEnded(text, from, k, newlineStop);
      }
    }

    /** Goes back to the start of this word or the one before, or fails at the start of the text. */
    method BackwardWordStart(newlineStop: bool) returns (found: bool)
      requires Valid()
      modifies this
      ensures Valid() && (found <==> exists k :: StartsBackward(Words(newlineStop), text, k, old(offset)))
      ensures if found then StartsBackward(Words(newlineStop), text, offset, old(offset)) else offset == 0
      ensures forall k :: offset < k <= old(offset) ==> !StartsBackward(Words(newlineStop), text, k, old(offset))
      ensures forall k :: NameFrom(text, k, old(offset)) ==> found && offset == k
    {
      WordsSane(newlineStop);
      found := BackwardClassifiedStart(Words(newlineStop));
      hide *;
      ghost var from: nat := old(offset);
      forall k | NameFrom(text, k, from) ensures found && offset == k {
        NameBegun(text, k, from, newlineStop);
      }
    }

    /** Goes back to the end of the word before, or fails at the start of the text. */
    method BackwardWordEnd(newlineStop: bool) returns (found: bool)
      requires Valid()
      modifies this
      ensures Valid()
      ensures old(offset) < |text| && text[old(offset)] == '\n' && newlineStop ==> found && offset == old(offset) + 1
      ensures old(offset) == |text| || text[old(offset)] != '\n' || !newlineStop ==>
        var j := LastStop(Words(newlineStop), text, old(offset));
        && (found <==> j >= 0)
        && offset == if !found then 0 else if End(Words(newlineStop), text, j) then j else j + 1
      ensures old(offset) == |text| || text[old(offset)] != '\n' || !newlineStop ==>
        forall k :: BlanksBehind(text, k, old(offset), newlineStop) ==> found && offset == k
    {
      WordsSane(newlineStop);
      ClassMeans(GetChar(), newlineStop);
      found := BackwardClassifiedEnd(Words(newlineStop));
      ghost var from: nat := old(offset);
      hide *;
      forall k | BlanksBehind(text, k, from, newlineStop)
        ensures LastStop(Words(newlineStop), text, from) == k && k >= 0 && End(Words(newlineStop), text, k)
      {
        BlanksSkipped(text, k, from, newlineStop);
      }
    }

    /** The same for words in the wide sense. */
    method ForwardWideStart(isSpace: char -> bool, newlineStop: bool) returns (found: bool)
      requires Valid()
      modifies this
      ensures Valid() && (found <==> exists k :: old(offset) < k && BeginsWide(isSpace, newlineStop, text, k))
      ensures found ==> old(offset) < offset && BeginsWide(isSpace, newlineStop, text, offset)
      ensures !found ==> offset == |text|
      ensures forall k :: old(offset) < k < offset ==> !BeginsWide(isSpace, newlineStop, text, k)
    {
      WideSane(isSpace, newlineStop);
      if newlineStop {
        found := ForwardClassifiedStart(WideClassifyNewlineStop(isSpace));
      } else {
        found := ForwardClassifiedStart(WideClassify(isSpace));
      }
      hide *;
      forall k {
        BeginsWideIs(isSpace, newlineStop, text, k);
      }
    }

    /** Goes on to the first character that fits and is not past the limit. */
    method ForwardFindChar(pred: (nat, char) -> bool, limit: int) returns (found: bool)
      requires Valid() && -1 <= limit <= |text|
      modifies this
      ensures Valid() && offset >= old(offset)
      ensures found <==> exists k :: old(offset) < k < |text| && (limit == -1 || k <= limit) && pred(k, text[k])
      ensures found ==> old(offset) < offset < |text| && pred(offset, text[offset]) && (limit == -1 || offset <= limit)
      ensures forall k :: old(offset) < k < offset && k < |text| ==> !pred(k, text[k])
    {
      if limit != -1 && offset >= limit {
        return false;
      }
      while limit == -1 || offset != limit
        invariant old(offset) <= offset <= |text| && (limit == -1 || offset <= limit)
        invariant forall k :: old(offset) < k <= offset && k < |text| ==> !pred(k, text[k])
        decreases |text| - offset
      {
        var ok := ForwardChar();
        if !ok {
          return false;
        }
        if pred(offset, GetChar()) {
          return true;
        }
      }
      found := false;
    }

    /** Goes back to the first character that fits and is not before the limit. */
    method BackwardFindChar(pred: (nat, char) -> bool, limit: int) returns (found: bool)
      requires Valid() && -1 <= limit <= |text|
      modifies this
      ensures Valid() && offset <= old(offset)
      ensures found <==> exists k :: 0 <= k < old(offset) && limit <= k && pred(k, text[k])
      ensures found ==> limit <= offset < old(offset) && pred(offset, text[offset])
      ensures forall k :: offset < k < old(offset) ==> !pred(k, text[k])
    {
      if limit != -1 && offset <= limit {
        return false;
      }
      while limit == -1 || offset != limit
        invariant offset <= old(offset) <= |text| && limit <= offset
        invariant forall k :: offset <= k < old(offset) ==> !pred(k, text[k])
        decreases offset
      {
        var ok := BackwardChar();
        if !ok {
          return false;
        }
        if pred(offset, GetChar()) {
          return true;
        }
      }
      found := false;
    }

    /**
     * Goes to the first place from here on where the string stands, as a whole before the limit; if it may only
     * stand here, no other place is tried.
     */
    method FindCharsForward(limit: int, str: string, onlyAtStart: bool) returns (found: bool, end: nat)
      requires Valid() && -1 <= limit <= |text|
      modifies this
      ensures Valid()
      ensures var stop := if limit == -1 then |text| else limit;
        found <==> str != "" && exists j ::
          (j == old(offset) || (old(offset) < j && !onlyAtStart)) && j + |str| <= stop && Matches(text, str, j)
      ensures found ==> old(offset) <= offset && (onlyAtStart ==> offset == old(offset)) && Matches(text, str, offset)
      ensures found ==> end == offset + |str|
      ensures found ==> forall j :: old(offset) <= j < offset ==> !Matches(text, str, j)
    {
      end := 0;
      if str == "" {
        return false, end;
      }
      var realLimit := (if limit == -1 then |text| else limit) - |str|;
      if realLimit < 0 || offset > realLimit {
        return false, end;
      }
      var base := offset;
      while true
        invariant old(offset) <= base <= realLimit && offset <= |text|
        invariant onlyAtStart ==> base == old(offset)
        invariant forall j :: old(offset) <= j < base ==> !Matches(text, str, j)
        decreases realLimit - base
      {
        offset := base;
        var i := 0;
        var ok := true;
        while ok
          invariant ok && offset == base + i && i < |str|
          invariant forall k :: 0 <= k < i ==> text[base + k] == str[k]
          decreases |str| - i
        {
          if GetChar() != str[i] {
            if onlyAtStart {
              return false, end;
            }
            break;
          }
          i := i + 1;
          if i == |str| {
            end := offset + 1;
            offset := base;
            assert Matches(text, str, offset);
            return true, end;
          }
          ok := ForwardChar();
        }
        if base >= realLimit {
          return false, end;
        }
        base := base + 1;
      }
      found := false;
    }

    /**
     * Goes back to the last place where the string stands as a whole before here; the limit that callers give is
     * not looked at. The comparison starts at the last byte of the string, so that a string whose last character
     * takes several bytes is never found.
     */
    method FindCharsBackward(str: string, onlyAtStart: bool) returns (found: bool, end: nat)
      requires Valid()
      modifies this
      ensures Valid()
      ensures found <==> str != "" && SingleByte(str[|str| - 1]) && exists j ::
        (j + |str| == old(offset) || (j + |str| < old(offset) && !onlyAtStart)) && Matches(text, str, j)
      ensures found ==> offset + |str| == end <= old(offset) && (onlyAtStart ==> end == old(offset))
      ensures found ==> Matches(text, str, offset)
      ensures found ==> forall j :: offset < j && j + |str| <= old(offset) ==> !Matches(text, str, j)
    {
      end := 0;
      if str == "" {
        return false, end;
      }
      var ok := BackwardChar();
      if !ok {
        return false, end;
      }
      var base := offset;
      while true
        invariant 0 <= base < old(offset) <= |text| && offset <= |text|
        invariant onlyAtStart ==> base + 1 == old(offset)
        invariant SingleByte(str[|str| - 1]) ==>
          forall j :: base < j + |str| - 1 && j + |str| <= old(offset) ==> !Matches(text, str, j)
        decreases base
      {
        offset := base;
        var i := |str| - 1;
        var more := true;
        while more
          invariant 0 <= i < |str| && offset <= base
          invariant more ==> base - offset == |str| - 1 - i
          invariant !more ==> offset == 0 && base < |str| - 1
          invariant i < |str| - 1 ==> SingleByte(str[|str| - 1])
          invariant forall k :: i < k < |str| && 0 <= base - (|str| - 1 - k) ==> text[base - (|str| - 1 - k)] == str[k]
          decreases i, more
        {
          if GetChar() != str[i] || (i == |str| - 1 && !SingleByte(str[i])) {
            if onlyAtStart {
              return false, end;
            }
            break;
          }
          if i == 0 {
            end := base + 1;
            assert Matches(text, str, offset);
            return true, end;
          }
          i := i - 1;
          more := BackwardChar();
        }
        if offset == 0 {
          return false, end;
        }
        base := base - 1;
      }
      found := false;
    }
  }
}
