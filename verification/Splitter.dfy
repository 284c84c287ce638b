/** The token-to-sentence splitter of pkg/speech/splitter.go. */
module Splitter {
  import opened Text

  const ELLIPSIS := '\U{2026}'
  const REPLACEMENT := '\U{FFFD}'

  /** The marks that end a sentence. */
  predicate IsEnd(c: char) {
    c in ".!?\U{3002}\U{FF01}\U{FF1F}\n"
  }

  /** Bytes of the UTF-8 encoding. */
  function ByteLen(s: string): nat {
    if s == [] then 0
    else (if s[0] < '\U{80}' then 1 else if s[0] < '\U{800}' then 2 else if s[0] < '\U{10000}' then 3 else 4)
         + ByteLen(s[1..])
  }

  /** How many characters are at or above a limit. */
  function AtLeast(s: string, limit: char): nat {
    if s == [] then 0 else (if s[0] >= limit then 1 else 0) + AtLeast(s[1..], limit)
  }

  /** A text takes one byte for each character, and one more for each limit of the encoding that the character reaches
      (section 3 of RFC 3629). */
  lemma {:induction false} ByteLenCounts(s: string)
    ensures ByteLen(s) == |s| + AtLeast(s, '\U{80}') + AtLeast(s, '\U{800}') + AtLeast(s, '\U{10000}')
  {
    if s != [] {
      ByteLenCounts(s[1..]);
    }
  }

  predicate IsCut(c: char) {
    c in " \t\n"
  }

  predicate HasEnd(text: string) {
    exists c :: c in text && IsEnd(c)
  }

  class SentenceSplitter {
    var buffer: string
    const minLen: int
    const maxLen: int
    /** unicode.IsPunct */
    const isPunct: char -> bool
    /** All tokens written and all sentences handed out, one after the other. */
    ghost var fed: string
    ghost var emitted: string

    /** Nothing but white space is lost, and nothing is reordered. */
    ghost predicate Valid()
      reads this
    {
      Squeeze(fed) == Squeeze(emitted + buffer)
    }

    constructor (minLen: int, maxLen: int, isPunct: char -> bool)
      ensures Valid() && buffer == "" && fed == "" && emitted == ""
      ensures this.minLen == minLen && this.maxLen == maxLen && this.isPunct == isPunct
    {
      buffer, fed, emitted := "", "", "";
      this.minLen, this.maxLen, this.isPunct := minLen, maxLen, isPunct;
    }

    /** Marks and spaces after an end mark belong to the sentence; a replacement character does not. */
    predicate Trails(c: char) {
      c != REPLACEMENT && (isPunct(c) || IsSpace(c))
    }

    /** idx is right after the first end mark and the marks and spaces that follow it. */
    ghost predicate IsSentenceEnd(text: string, idx: int) {
      exists i :: 0 <= i < idx <= |text| && IsEnd(text[i])
        && (forall k :: 0 <= k < i ==> !IsEnd(text[k]))
        && (forall k :: i < k < idx ==> Trails(text[k]))
        && (idx < |text| ==> !Trails(text[idx]))
    }

    /** The first cut position, in 1..|text|; -1 when the text has no end mark (an ellipsis is none). */
    method FindSentenceEnd(text: string) returns (idx: int)
      ensures idx == -1 <==> !HasEnd(text)
      ensures idx == -1 <==> forall c :: c in text ==> c !in ".!?\U{3002}\U{FF01}\U{FF1F}\n"
      ensures idx != -1 ==> 1 <= idx <= |text| && IsSentenceEnd(text, idx)
    {
      hide IsSpace;
      assert forall c :: IsEnd(c) <==> c in ".!?\U{3002}\U{FF01}\U{FF1F}\n";
      hide IsEnd;
      for i := 0 to |text|
        invariant forall k :: 0 <= k < i ==> !IsEnd(text[k])
      {
        var r := text[i];
        if IsEnd(r) || r == ELLIPSIS {
          if r == ELLIPSIS {
            continue;
          }
          var j := i + 1;
          while j < |text|
            invariant i < j <= |text|
            invariant forall k :: i < k < j ==> Trails(text[k])
          {
            if text[j] == REPLACEMENT {
              break;
            }
            if isPunct(text[j]) || IsSpace(text[j]) {
              j := j + 1;
            } else {
              break;
            }
          }
          return j;
        }
      }
      return -1;
    }

    /** Cuts off the first sentence, and the blanks after it, if there is an end mark. */
    method TryExtractSentence() returns (sentence: string)
      requires Valid()
      modifies `buffer, `emitted
      ensures Valid() && emitted == old(emitted) + sentence
      ensures sentence == "" <==> !HasEnd(old(buffer))
      ensures sentence == "" ==> buffer == old(buffer)
      ensures sentence != "" ==>
        && sentence <= old(buffer) && IsSentenceEnd(old(buffer), |sentence|)
        && buffer == TrimLeft(old(buffer)[|sentence|..], IsCut)
    {
      hide IsEnd, IsSpace, Squeeze, HasEnd, IsSentenceEnd, TrimLeft;
      if |buffer| == 0 {
        NoEnd();
        assert emitted + "" == emitted;
        return "";
      }
      var text := buffer;
      var idx := FindSentenceEnd(text);
      if idx > 0 {
        sentence := text[..idx];
        var remaining := TrimLeft(text[idx..], IsCut);
        CutsAreSpaces();
        TrimKeepsSqueeze(text[idx..], IsCut);
        KeepsText(emitted, sentence, text[idx..], remaining, text);
        buffer := remaining;
        emitted := emitted + sentence;
        return sentence;
      }
      assert emitted + "" == emitted;
      return "";
    }

    /** Adds a token; returns a sentence when one is complete or the buffer is too long. */
    method Write(token: string) returns (sentence: string)
      requires Valid()
      modifies this
      ensures Valid() && fed == old(fed) + token && emitted == old(emitted) + sentence
      ensures var text := old(buffer) + token;
        if ByteLen(text) >= minLen && HasEnd(text) then
          IsSentenceEnd(text, |sentence|) && sentence <= text && buffer == TrimLeft(text[|sentence|..], IsCut)
        else if ByteLen(text) >= maxLen then sentence == text && buffer == ""
        else sentence == "" && buffer == text
    {
      hide IsEnd, IsSpace, Squeeze, HasEnd, IsSentenceEnd, TrimLeft, ByteLen;
      SqueezeConcat(fed, token);
      SqueezeConcat(emitted + buffer, token);
      assert emitted + buffer + token == emitted + (buffer + token);
      fed, buffer := fed + token, buffer + token;
      if ByteLen(buffer) >= minLen {
        sentence := TryExtractSentence();
        if sentence != "" {
          return;
        }
      }
      if ByteLen(buffer) >= maxLen {
        sentence := buffer;
        assert emitted + buffer == emitted + buffer + "";
        emitted := emitted + sentence;
        buffer := "";
        return;
      }
      assert emitted + "" == emitted;
      return "";
    }

    /** Hands out what is left, without surrounding white space. */
    method Flush() returns (text: string)
      requires Valid()
      modifies `buffer, `emitted
      ensures Valid() && buffer == "" && text == TrimSpace(old(buffer)) && emitted == old(emitted) + text
      ensures Squeeze(fed) == Squeeze(emitted)
    {
      hide IsSpace, Squeeze, TrimLeft, TrimRight;
      text := TrimSpace(buffer);
      TrimKeepsSqueeze(buffer, IsSpace);
      TrimKeepsSqueeze(TrimLeft(buffer, IsSpace), IsSpace);
      SqueezeConcat(emitted, buffer);
      SqueezeConcat(emitted, text);
      emitted := emitted + text;
      buffer := "";
      assert emitted + buffer == emitted;
    }
  }

  lemma NoEnd()
    ensures !HasEnd("")
  {}

  lemma CutsAreSpaces()
    ensures forall c :: IsCut(c) ==> IsSpace(c)
  {}

  lemma {:induction false} KeepsText(emitted: string, sentence: string, tail: string, remaining: string, text: string)
    requires text == sentence + tail && Squeeze(remaining) == Squeeze(tail)
    ensures Squeeze(emitted + sentence + remaining) == Squeeze(emitted + text)
  {
    hide Squeeze;
    SqueezeConcat(emitted + sentence, remaining);
    SqueezeConcat(emitted + sentence, tail);
    assert emitted + sentence + tail == emitted + text;
  }
}
