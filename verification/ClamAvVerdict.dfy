/**
  From the scanner's reply to the verdict (`scan` in backend/src/files/malware/clamav-malware-scanner.ts).
  The expressions are matched on bytes: letters, digits and the underscore make words, and case is ignored.
*/
module ClamAvVerdict {
  import opened Common
  import opened ClamAv
  import opened ClamAvReply

  datatype Verdict = Clean | Infected | Unsupported | Failed

  predicate IsWord(b: Byte) {
    0x30 <= b <= 0x39 || 0x41 <= b <= 0x5A || 0x61 <= b <= 0x7A || b == 0x5F
  }

  function Lower(b: Byte): Byte {
    if 0x41 <= b <= 0x5A then b + 0x20 else b
  }

  /** `s` reads `word`, which is in lower case, in any case. */
  predicate Spells(s: Bytes, word: string) {
    |s| == |word| && forall i :: 0 <= i < |s| ==> Lower(s[i]) as int == word[i] as int
  }

  /** `word` as the last word, or as the end of the last run that is not a word before it. */
  predicate EndsInWord(s: Bytes, word: string) {
    && |word| <= |s| && Spells(s[|s| - |word|..], word)
    && (|s| == |word| || !IsWord(s[|s| - |word| - 1]))
  }

  predicate SpellsAt(s: Bytes, i: nat, words: string) {
    i + |words| <= |s| && Spells(s[i..i + |words|], words)
  }

  predicate Mentions(s: Bytes, words: string) {
    exists i :: 0 <= i <= |s| && SpellsAt(s, i, words)
  }

  function VerdictOf(s: Bytes): Verdict {
    if EndsInWord(s, "ok") then Clean
    else if EndsInWord(s, "found") then Infected
    else if Mentions(s, "instream size limit exceeded") then Unsupported
    else Failed
  }

  predicate IsSpace(b: Byte) {
    0x09 <= b <= 0x0D || b == 0x20
  }

  function Trim(s: Bytes): Bytes
    decreases |s|
  {
    if s != [] && IsSpace(s[0]) then Trim(s[1..])
    else if s != [] && IsSpace(s[|s| - 1]) then Trim(s[..|s| - 1])
    else s
  }

  /** What `scan` answers once the reply has settled; an error is thrown otherwise. */
  function Answer(o: Outcome): Option<Verdict> {
    match o
    case Terminated(text) => Some(VerdictOf(text))
    case Ended(text) => Some(VerdictOf(Trim(text)))
    case TooLarge => None
    case Broken => None
  }

  // ---------------------------------------------------------------- what the verdict means

  function Ascii(s: string): Bytes
    requires forall i :: 0 <= i < |s| ==> s[i] < 128 as char
  {
    seq(|s|, i requires 0 <= i < |s| => s[i] as int)
  }

  lemma LastByte(s: Bytes, word: string)
    requires EndsInWord(s, word) && word != ""
    ensures s != [] && Lower(s[|s| - 1]) as int == word[|word| - 1] as int
  {
    var tail := s[|s| - |word|..];
    assert tail[|word| - 1] == s[|s| - 1];
  }

  /** No reply says both, so the order of the tests does not matter: clean exactly if it ends in OK, infected exactly if in FOUND. */
  lemma VerdictExactly(s: Bytes)
    ensures VerdictOf(s) == Clean <==> EndsInWord(s, "ok")
    ensures VerdictOf(s) == Infected <==> EndsInWord(s, "found")
    ensures VerdictOf(s) == Unsupported <==>
              !EndsInWord(s, "ok") && !EndsInWord(s, "found") && Mentions(s, "instream size limit exceeded")
  {
    if EndsInWord(s, "ok") && EndsInWord(s, "found") {
      LastByte(s, "ok");
      LastByte(s, "found");
    }
  }

  lemma EndsInAppended(prefix: Bytes, tail: Bytes, word: string)
    requires Spells(tail, word) && (prefix == [] || !IsWord(prefix[|prefix| - 1]))
    ensures EndsInWord(prefix + tail, word)
  {
    var s := prefix + tail;
    assert s[|s| - |word|..] == tail;
    if prefix != [] { assert s[|s| - |word| - 1] == prefix[|prefix| - 1]; }
  }

  /** Whatever the daemon reports before it, a signature name included, the last word decides. */
  lemma LastWordDecides(prefix: Bytes, word: Bytes)
    requires prefix == [] || !IsWord(prefix[|prefix| - 1])
    ensures Spells(word, "ok") ==> VerdictOf(prefix + word) == Clean
    ensures Spells(word, "found") ==> VerdictOf(prefix + word) == Infected
  {
    if Spells(word, "ok") { EndsInAppended(prefix, word, "ok"); }
    if Spells(word, "found") {
      EndsInAppended(prefix, word, "found");
      VerdictExactly(prefix + word);
    }
  }

  /** The daemon's own replies, for every report of a signature. */
  lemma DaemonReplies(report: Bytes, found: Bytes)
    requires Spells(found, "found")
    ensures VerdictOf(Ascii("stream: OK")) == Clean
    ensures VerdictOf(report + [0x20] + found) == Infected
  {
    LastWordDecides(Ascii("stream: "), Ascii("OK"));
    assert Ascii("stream: ") + Ascii("OK") == Ascii("stream: OK");
    LastWordDecides(report + [0x20], found);
  }

  /** A reply about the size limit that ends in another letter than those two words is unsupported. */
  lemma SizeLimitReply(before: Bytes, words: Bytes, after: Bytes)
    requires Spells(words, "instream size limit exceeded") && after != [] && Lower(after[|after| - 1]) !in {0x6B, 0x64}
    ensures VerdictOf(before + words + after) == Unsupported
  {
    var s := before + words + after;
    assert s[|before|..|before| + |words|] == words;
    assert SpellsAt(s, |before|, "instream size limit exceeded");
    assert s[|s| - 1] == after[|after| - 1];
    if EndsInWord(s, "ok") { LastByte(s, "ok"); }
    if EndsInWord(s, "found") { LastByte(s, "found"); }
  }

  /** Every request begins with the command the daemon expects, and its zero byte. */
  lemma RequestBegins(body: Bytes)
    ensures |Request(body)| >= 10 && Request(body)[..10] == Ascii("zINSTREAM") + [0]
  {
    assert COMMAND == Ascii("zINSTREAM") + [0];
    assert Request(body)[..10] == COMMAND;
  }

  /** However a terminated reply within the limit is split into data events, the answer is the verdict of its text. */
  lemma VerdictAnySplit(text: Bytes, chunks: seq<Bytes>)
    requires |text| < 16384 && Concat(chunks) == text + [0] && forall k :: 0 <= k < |text| ==> text[k] != 0
    ensures var o := Receive(chunks); o.Some? && Answer(o.value) == Some(VerdictOf(text))
  {
    SmallReplyAnySplit(chunks);
    var reply := text + [0];
    assert reply[|text|] == 0 && IndexOfZero(reply) == |text|;
    assert reply[..|text|] == text;
  }

  /** A line end before the zero byte is not trimmed, and then even a clean reply counts as failed. */
  lemma LineEndMatters()
    ensures Answer(Terminated(Ascii("stream: OK") + [0x0A])) == Some(Failed)
    ensures Answer(Ended(Ascii("stream: OK") + [0x0A])) == Some(Clean)
  {
    var line := Ascii("stream: OK") + [0x0A];
    if EndsInWord(line, "ok") { LastByte(line, "ok"); }
    if EndsInWord(line, "found") { LastByte(line, "found"); }
    assert |line| < |"instream size limit exceeded"|;
    assert line[..|line| - 1] == Ascii("stream: OK");
    var t := Ascii("stream: OK");
    assert Trim(t) == t by { assert !IsSpace(t[0]) && !IsSpace(t[|t| - 1]); }
    assert Trim(line) == Trim(t) by { assert !IsSpace(line[0]) && IsSpace(line[|line| - 1]); }
    DaemonReplies([], Ascii("found"));
  }
}
