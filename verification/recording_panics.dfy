/**
 When reading a recording panics instead of answering: `from_hex` cuts a word into pairs of
 bytes, and a pair may begin or end inside a character.
 */
module RecordingPanics {
  import opened Arith
  import opened Wrappers
  import opened Text
  import opened Numerals
  import opened Scenarios
  import opened Recordings
  import opened RecordingParser
  import opened RecordingLaws
  import opened RecordingRoundTrip

  /** What a caller can ask of a word before it is read as a byte string. */
  predicate CutsBadly(word: string) {
    word != EMPTY && Utf8Length(word) % 2 == 0 && SplitsCharacter(word)
  }

  predicate Panicked<T>(r: Parse<T>) {
    r.Failed? && r.problem.Panics?
  }

  /** A panic is over one of the words of the line, and over one that is cut badly. */
  ghost predicate PanicsOver<T>(r: Parse<T>, t: Words) {
    Panicked(r) ==> r.problem.word in t && CutsBadly(r.problem.word)
  }

  lemma HexPanics(word: string, signs: bool)
    ensures Panicked(ReadHex(word, signs)) <==> signs && CutsBadly(word)
    ensures Panicked(ReadHex(word, signs)) ==> ReadHex(word, signs).problem.word == word
  {
  }

  /** A byte string read with `from_str_radix` panics exactly when its word is cut badly. */
  lemma BytesPanic(t: Words, at: nat, what: string)
    requires at < |t|
    ensures Panicked(Bytes(t, at, what, true)) <==> CutsBadly(t[at])
    ensures !Panicked(Bytes(t, at, what, false))
  {
    HexPanics(t[at], true);
    HexPanics(t[at], false);
  }

  lemma BytesPanicOver(t: Words, at: nat, what: string, signs: bool)
    ensures PanicsOver(Bytes(t, at, what, signs), t)
    ensures Bytes(t, at, what, signs).Parsed? ==> Bytes(t, at, what, signs).at == at + 1
  {
    if at < |t| { HexPanics(t[at], signs); }
  }

  lemma TextPanicsOver(t: Words, at: nat, what: string)
    ensures PanicsOver(TextField(t, at, what), t)
    ensures TextField(t, at, what).Parsed? ==> TextField(t, at, what).at == at + 1
  {
    BytesPanicOver(t, at, what, true);
  }

  lemma PrefixNeverPanics(t: Words, at: nat)
    ensures !Panicked(PrefixField(t, at))
    ensures at < |t| ==> !Panicked(ReadPrefix(t[at]))
  {
    if at < |t| { HexPanics(t[at], false); }
  }

  /** Numbers are read with an error at worst. */
  lemma NumNeverPanics(t: Words, at: nat, what: string, min: int, max: int)
    ensures !Panicked(Num(t, at, what, min, max))
    ensures Num(t, at, what, min, max).Parsed? ==> Num(t, at, what, min, max).at == at + 1
  {
  }

  lemma {:induction false} RepeatedNeverPanics(t: Words, at: nat, what: string, count: nat)
    ensures !Panicked(Repeated(t, at, what, count))
    decreases count
  {
    if count > 0 {
      NumNeverPanics(t, at, what, 0, U16_MAX);
      RepeatedNeverPanics(t, at + 1, what, count - 1);
    }
  }

  lemma IdsNeverPanic(t: Words, at: nat, what: string)
    ensures !Panicked(Ids(t, at, what))
  {
    var count := NumU64(t, at, what);
    if count.Parsed? { RepeatedNeverPanics(t, count.at, what, count.value); }
  }

  lemma SplitNeverPanics(t: Words, at: nat)
    ensures !Panicked(ParseRareOp("split", t, at))
  {
    IdsNeverPanic(t, at, "left");
    var left := Ids(t, at, "left");
    if left.Parsed? { IdsNeverPanic(t, left.at, "right"); }
  }

  lemma StorePanics(t: Words, at: nat)
    ensures PanicsOver(ParseRareOp("store", t, at), t)
  {
    NumNeverPanics(t, at, "node", 0, U16_MAX);
    TextPanicsOver(t, at + 1, "key");
    BytesPanicOver(t, at + 2, "value", true);
  }

  lemma ErasePanics(t: Words, at: nat)
    ensures PanicsOver(ParseRareOp("erase", t, at), t)
  {
    NumNeverPanics(t, at, "node", 0, U16_MAX);
    TextPanicsOver(t, at + 1, "key");
  }

  lemma RareOpPanics(tag: string, t: Words, at: nat)
    ensures PanicsOver(ParseRareOp(tag, t, at), t)
  {
    if tag == "split" {
      SplitNeverPanics(t, at);
    } else if tag == "store" {
      StorePanics(t, at);
    } else if tag == "erase" {
      ErasePanics(t, at);
    }
  }

  lemma SendOpPanics(t: Words, at: nat)
    requires at < |t| && (t[at] == "send" || t[at] == "multicast")
    ensures PanicsOver(ParseOp(t, at), t)
  {
    NumNeverPanics(t, at + 1, "from", 0, U16_MAX);
    NumNeverPanics(t, at + 2, "to", 0, U16_MAX);
    NumNeverPanics(t, at + 2, "group", 0, U8_MAX);
    BytesPanicOver(t, at + 3, "bytes", true);
  }

  lemma OpPanics(t: Words, at: nat)
    ensures PanicsOver(ParseOp(t, at), t)
  {
    if at < |t| {
      if t[at] == "send" || t[at] == "multicast" {
        SendOpPanics(t, at);
      } else {
        RareOpPanics(t[at], t, at + 1);
      }
    }
  }

  lemma EventNeverPanics(t: Words, at: nat)
    ensures !Panicked(ParseEvent(t, at))
  {
    PrefixNeverPanics(t, at + 1);
  }

  lemma SendingNeverPanics(t: Words, at: nat)
    requires at < |t| && t[at] == "send"
    ensures !Panicked(ParseAction(t, at))
  {
    PrefixNeverPanics(t, at + 1);
    if at + 3 < |t| { HexPanics(t[at + 3], false); }
  }

  lemma OtherActionNeverPanics(t: Words, at: nat)
    requires at < |t| ==> t[at] != "send"
    ensures !Panicked(ParseAction(t, at))
  {
    NumNeverPanics(t, at + 1, "in_us", 0, U64_MAX);
    NumNeverPanics(t, at + 2, "epoch", 0, U32_MAX);
  }

  lemma ActionNeverPanics(t: Words, at: nat)
    ensures !Panicked(ParseAction(t, at))
  {
    if at < |t| && t[at] == "send" {
      SendingNeverPanics(t, at);
    } else {
      OtherActionNeverPanics(t, at);
    }
  }

  lemma TraceNeverPanics(t: Words, at: nat)
    ensures !Panicked(ParseTrace(t, at))
  {
    EventNeverPanics(t, at + 1);
    ActionNeverPanics(t, at + 1);
  }

  lemma OpLinePanics(d: Draft, t: Words)
    requires t != [] && t[0] == "op"
    ensures PanicsOver(ParseWords(d, t), t)
  {
    NumNeverPanics(t, 1, "at_us", 0, U64_MAX);
    OpPanics(t, 2);
  }

  lemma TraceLineNeverPanics(d: Draft, t: Words)
    requires t != [] && t[0] == "trace"
    ensures !Panicked(ParseWords(d, t))
  {
    NumNeverPanics(t, 1, "at_us", 0, U64_MAX);
    NumNeverPanics(t, 2, "node", 0, U16_MAX);
    TraceNeverPanics(t, 3);
  }

  lemma OtherLineNeverPanics(d: Draft, t: Words)
    requires t == [] || (t[0] != "op" && t[0] != "trace")
    ensures !Panicked(ParseWords(d, t))
  {
  }

  lemma WordsPanic(d: Draft, t: Words)
    ensures PanicsOver(ParseWords(d, t), t)
  {
    if t != [] && t[0] == "op" {
      OpLinePanics(d, t);
    } else if t != [] && t[0] == "trace" {
      TraceLineNeverPanics(d, t);
    } else {
      OtherLineNeverPanics(d, t);
    }
  }

  // -------------------------------------------------------------------------- texts

  /** Reading the text panics. */
  predicate ReadPanics(text: string) {
    Read(text).Err? && Read(text).error.problem.Panics?
  }

  ghost predicate MadeOf(part: string, text: string) {
    forall c :: c in part ==> c in text
  }

  lemma {:induction false} WordsAreMadeOf(s: string)
    ensures forall w :: w in Text.Words(s) ==> MadeOf(w, s)
  {
    if s != [] {
      if IsWhite(s[0]) {
        WordsAreMadeOf(s[1..]);
      } else {
        WordsAreMadeOf(s[WordLength(s)..]);
      }
    }
  }

  lemma {:induction false} TrimIsMadeOf(s: string)
    ensures MadeOf(TrimStart(s), s) && MadeOf(TrimEnd(s), s)
  {
    if s != [] {
      TrimIsMadeOf(s[1..]);
      TrimIsMadeOf(s[..|s| - 1]);
    }
  }

  lemma {:induction false} LinesAreMadeOf(s: string)
    ensures forall line :: line in Lines(s) ==> MadeOf(line, s)
    decreases |s|
  {
    if s != [] {
      var n := LineLength(s);
      if n < |s| { LinesAreMadeOf(s[n + 1..]); }
    }
  }

  lemma LinePanics(d: Draft, raw: string, line: nat)
    ensures var r := ParseLine(d, raw, line);
            r.Err? && r.error.problem.Panics? ==> MadeOf(r.error.problem.word, raw) && CutsBadly(r.error.problem.word)
  {
    var t := Text.Words(Trim(raw));
    WordsPanic(d, t);
    WordsAreMadeOf(Trim(raw));
    TrimIsMadeOf(raw);
    TrimIsMadeOf(TrimStart(raw));
  }

  lemma {:induction false} LinesPanic(lines: seq<string>, text: string)
    requires forall line :: line in lines ==> MadeOf(line, text)
    ensures var r := ParseLines(lines);
            r.Err? && r.error.problem.Panics? ==> MadeOf(r.error.problem.word, text) && CutsBadly(r.error.problem.word)
  {
    if lines != [] {
      var last := |lines| - 1;
      LinesPanic(lines[..last], text);
      if ParseLines(lines[..last]).Ok? {
        LinePanics(ParseLines(lines[..last]).value, lines[last], |lines|);
        assert lines[last] in lines;
      }
    }
  }

  /** What panics is over characters of the text that are not ASCII, so an ASCII text never does. */
  lemma AsciiNeverPanics(text: string)
    ensures ReadPanics(text) ==>
      var word := Read(text).error.problem.word;
      MadeOf(word, text) && CutsBadly(word) && !IsAscii(word)
    ensures IsAscii(text) ==> !ReadPanics(text)
  {
    LinesAreMadeOf(text);
    LinesPanic(Lines(text), text);
    if ReadPanics(text) && IsAscii(Read(text).error.problem.word) {
      AsciiIsNotSplit(Read(text).error.problem.word);
    }
  }

  // ---------------------------------------------------------------------- one operation

  /** A send of some bytes, as its line says it. */
  function SendWords(atUs: U64, from: NodeId, to: NodeId, word: string): Words {
    ["op", DecimalInt(atUs), "send", DecimalInt(from), DecimalInt(to), word]
  }

  function HeaderWords(): Words { [HEADER, DecimalInt(FORMAT_VERSION)] }

  lemma SendPanics(d: Draft, atUs: U64, from: NodeId, to: NodeId, word: string)
    ensures Panicked(ParseWords(d, SendWords(atUs, from, to, word))) <==> CutsBadly(word)
  {
    var t := SendWords(atUs, from, to, word);
    NumReads(t, 1, "at_us", 0, U64_MAX, atUs);
    NumReads(t, 3, "from", 0, U16_MAX, from);
    NumReads(t, 4, "to", 0, U16_MAX, to);
    BytesPanic(t, 5, "bytes");
  }

  lemma HeaderIsLine()
    ensures IsLine(HeaderWords())
  {
    NumberIsWord(FORMAT_VERSION);
  }

  lemma SendIsLine(atUs: U64, from: NodeId, to: NodeId, word: string)
    requires IsWord(word)
    ensures IsLine(SendWords(atUs, from, to, word))
  {
    var t := SendWords(atUs, from, to, word);
    NumberIsWord(atUs);
    NumberIsWord(from);
    NumberIsWord(to);
    assert IsWord(t[0]) && IsWord(t[1]) && IsWord(t[2]) && IsWord(t[3]) && IsWord(t[4]) && IsWord(t[5]);
  }

  lemma FinishingNeverPanics(d: Draft)
    ensures Finished(d).Err? ==> !Finished(d).error.problem.Panics?
  {
  }

  /** A printed text reads as its lines do. */
  lemma PrintedPanics(ls: seq<Words>)
    requires forall w :: w in ls ==> IsLine(w)
    ensures ReadPanics(Printed(ls)) <==> ParseAll(ls).Err? && ParseAll(ls).error.problem.Panics?
  {
    PrintedLines(ls);
    LinesReadAsWords(Lines(Printed(ls)), ls);
    if ParseAll(ls).Ok? { FinishingNeverPanics(ParseAll(ls).value); }
  }

  lemma SecondLinePanics(a: Words, b: Words, d: Draft)
    requires ParseAll([a]) == Ok(d)
    ensures ParseAll([a, b]).Err? && ParseAll([a, b]).error.problem.Panics? <==> Panicked(ParseWords(d, b))
  {
    assert [a, b][..1] == [a];
  }

  /**
   A text of the header and one operation that carries a byte string panics exactly if the word
   for it is not the empty one, has an even number of bytes, and is cut inside a character.
   */
  lemma ReadPanicsExactly(atUs: U64, from: NodeId, to: NodeId, word: string)
    requires IsWord(word)
    ensures ReadPanics(Printed([HeaderWords(), SendWords(atUs, from, to, word)])) <==> CutsBadly(word)
  {
    var d := BLANK.(sawHeader := true);
    HeaderIsLine();
    SendIsLine(atUs, from, to, word);
    PrintedPanics([HeaderWords(), SendWords(atUs, from, to, word)]);
    HeaderReads();
    SecondLinePanics(HeaderWords(), SendWords(atUs, from, to, word), d);
    SendPanics(d, atUs, from, to, word);
  }

  lemma CutInside()
    ensures IsWord(['a', '\U{E9}', '0']) && CutsBadly(['a', '\U{E9}', '0'])
  {
    var word := ['a', '\U{E9}', '0'];
    assert word[1..] == ['\U{E9}', '0'] && ['\U{E9}', '0'][1..] == ['0'] && ['0'][1..] == [];
    assert Utf8Length(['0']) == 1;
    assert Utf8Length(['\U{E9}', '0']) == 3;
    assert Utf8Length(word) == 4;
  }

  /** An `a`, an acute `e` and a nought: four bytes, cut inside the second character. */
  lemma SomeTextPanics()
    ensures ReadPanics(Printed([HeaderWords(), SendWords(0, 0, 0, ['a', '\U{E9}', '0'])]))
  {
    CutInside();
    ReadPanicsExactly(0, 0, 0, ['a', '\U{E9}', '0']);
  }
}
