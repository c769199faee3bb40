/**
 * The step log writer (engine/build_step_delegate.go): it holds back bytes until
 * what it has ends in a complete character, as Go's utf8.DecodeLastRune sees it.
 *
 * `ValidUtf8` is the syntax of section 4 of RFC 3629; `DecodeLastRune` is the
 * library's backward scan. The theorems relate the two for every chunking.
 */
module LogWriter {
  type Byte = b: int | 0 <= b < 256

  // ---- RFC 3629, section 4 ---------------------------------------------------

  predicate Tail(b: Byte) { 0x80 <= b <= 0xBF }

  /** One octet sequence UTF8-1, UTF8-2, UTF8-3 or UTF8-4. */
  predicate IsChar(s: seq<Byte>)
  {
    match |s|
    case 1 => s[0] <= 0x7F
    case 2 => 0xC2 <= s[0] <= 0xDF && Tail(s[1])
    case 3 =>
      && Tail(s[2])
      && (|| (s[0] == 0xE0 && 0xA0 <= s[1] <= 0xBF)
          || (0xE1 <= s[0] <= 0xEC && Tail(s[1]))
          || (s[0] == 0xED && 0x80 <= s[1] <= 0x9F)
          || (0xEE <= s[0] <= 0xEF && Tail(s[1])))
    case 4 =>
      && Tail(s[2]) && Tail(s[3])
      && (|| (s[0] == 0xF0 && 0x90 <= s[1] <= 0xBF)
          || (0xF1 <= s[0] <= 0xF3 && Tail(s[1]))
          || (s[0] == 0xF4 && 0x80 <= s[1] <= 0x8F))
    case _ => false
  }

  /** The length of a character, from its first octet. */
  function Width(b: Byte): nat
  {
    if b <= 0x7F then 1 else if b < 0xC2 then 0 else if b <= 0xDF then 2
    else if b <= 0xEF then 3 else if b <= 0xF4 then 4 else 0
  }

  predicate StartsWithChar(s: seq<Byte>, n: nat)
  {
    n <= |s| && IsChar(s[..n])
  }

  predicate EndsWithChar(s: seq<Byte>, n: nat)
  {
    n <= |s| && IsChar(s[|s| - n..])
  }

  /** UTF8-octets = *( UTF8-char ) */
  predicate ValidUtf8(s: seq<Byte>)
  {
    s == [] || (StartsWithChar(s, Width(s[0])) && ValidUtf8(s[Width(s[0])..]))
  }

  // ---- Go's unicode/utf8 -----------------------------------------------------

  const RUNE_ERROR := 0xFFFD

  /** The `first` table: width, and the range the second byte must fall into. */
  function Lead(b: Byte): (int, int, int)
  {
    if b <= 0x7F then (1, 0, 0)
    else if b < 0xC2 then (0, 0, 0)
    else if b <= 0xDF then (2, 0x80, 0xBF)
    else if b == 0xE0 then (3, 0xA0, 0xBF)
    else if b == 0xED then (3, 0x80, 0x9F)
    else if b <= 0xEF then (3, 0x80, 0xBF)
    else if b == 0xF0 then (4, 0x90, 0xBF)
    else if b <= 0xF3 then (4, 0x80, 0xBF)
    else if b == 0xF4 then (4, 0x80, 0x8F)
    else (0, 0, 0)
  }

  function DecodeRune(p: seq<Byte>): (int, nat)
  {
    if p == [] then (RUNE_ERROR, 0)
    else
      var (size, low, high) := Lead(p[0]);
      if size == 1 then (p[0], 1)
      else if size == 0 || |p| < size || p[1] < low || high < p[1] then (RUNE_ERROR, 1)
      else if size == 2 then ((p[0] as int - 0xC0) * 64 + (p[1] as int - 0x80), 2)
      else if !Tail(p[2]) then (RUNE_ERROR, 1)
      else if size == 3 then ((p[0] as int - 0xE0) * 4096 + (p[1] as int - 0x80) * 64 + (p[2] as int - 0x80), 3)
      else if !Tail(p[3]) then (RUNE_ERROR, 1)
      else ((p[0] as int - 0xF0) * 262144 + (p[1] as int - 0x80) * 4096
            + (p[2] as int - 0x80) * 64 + (p[3] as int - 0x80), 4)
  }

  /** The backward loop for a byte that can start a rune; one below `limit` if there is none. */
  function ScanBack(p: seq<Byte>, start: int, limit: nat): (r: int)
    requires limit - 1 <= start < |p|
    ensures limit - 1 <= r <= start
    ensures forall i | r < i <= start :: Tail(p[i])
    ensures r >= limit ==> !Tail(p[r])
    decreases start
  {
    if start < limit then start
    else if !Tail(p[start]) then start
    else ScanBack(p, start - 1, limit)
  }

  function LastStart(p: seq<Byte>): (start: nat)
    requires p != []
    ensures start < |p|
  {
    var end := |p|;
    var limit := if end < 4 then 0 else end - 4;
    var found := ScanBack(p, end - 2, limit);
    if found < 0 then 0 else found
  }

  function DecodeLastRune(p: seq<Byte>): (int, nat)
  {
    if p == [] then (RUNE_ERROR, 0)
    else if p[|p| - 1] <= 0x7F then (p[|p| - 1], 1)
    else
      var last := p[LastStart(p)..];
      var (r, size) := DecodeRune(last);
      if size != |last| then (RUNE_ERROR, 1) else (r, size)
  }

  // ---- The writer ------------------------------------------------------------

  datatype Log = Log(saved: seq<seq<Byte>>, dangling: seq<Byte>)

  /** One Write whose save does not fail. */
  function Written(log: Log, data: seq<Byte>): Log
  {
    var text := log.dangling + data;
    if DecodeLastRune(text).0 == RUNE_ERROR then Log(log.saved, text)
    else Log(log.saved + [text], [])
  }

  class EventWriter {
    var saved: seq<seq<Byte>>
    var dangling: seq<Byte>

    constructor ()
      ensures saved == [] && dangling == []
    {
      saved, dangling := [], [];
    }

    /** `saves` says whether SaveEvent succeeds. The buffer is cleared before the
        save, so a failed save loses the held-back bytes with it. */
    method Write(data: seq<Byte>, saves: bool) returns (n: nat, ok: bool)
      modifies this
      ensures
        var before := Log(old(saved), old(dangling));
        var after := Written(before, data);
        var failed := !saves && after.saved != before.saved;
        && ok == !failed && n == (if failed then 0 else |data|)
        && dangling == after.dangling
        && saved == (if failed then before.saved else after.saved)
    {
      var text := dangling + data;
      var checkEncoding := DecodeLastRune(text).0;
      if checkEncoding == RUNE_ERROR {
        dangling := text;
        return |data|, true;
      }
      dangling := [];
      if !saves {
        return 0, false;
      }
      saved := saved + [text];
      return |data|, true;
    }
  }

  function WrittenAll(log: Log, chunks: seq<seq<Byte>>): Log
  {
    if chunks == [] then log else Written(WrittenAll(log, chunks[..|chunks| - 1]), chunks[|chunks| - 1])
  }

  function Flat(chunks: seq<seq<Byte>>): seq<Byte>
  {
    if chunks == [] then [] else Flat(chunks[..|chunks| - 1]) + chunks[|chunks| - 1]
  }

  // ---- The decoder agrees with the RFC ---------------------------------------

  lemma DecodeRuneMeaning(p: seq<Byte>)
    ensures var (r, size) := DecodeRune(p);
      && size <= 4 && size <= |p|
      && (size >= 1 && r != RUNE_ERROR ==> StartsWithChar(p, size))
      && (size >= 2 ==> StartsWithChar(p, size))
  {
  }

  lemma CharDecodes(s: seq<Byte>)
    requires IsChar(s)
    ensures DecodeRune(s).1 == |s|
    ensures DecodeRune(s).0 == RUNE_ERROR <==> s == [0xEF, 0xBF, 0xBD]
  {
    if |s| == 3 {
      assert s == [s[0], s[1], s[2]];
    }
  }

  /** The backward scan finds a character exactly when the text ends in one. */
  lemma LastRuneIsChar(p: seq<Byte>)
    requires DecodeLastRune(p).0 != RUNE_ERROR
    ensures 1 <= DecodeLastRune(p).1 <= 4 && EndsWithChar(p, DecodeLastRune(p).1)
  {
    hide DecodeRune, LastStart;
    if p[|p| - 1] <= 0x7F {
      assert p[|p| - 1..] == [p[|p| - 1]];
    } else {
      var last := p[LastStart(p)..];
      DecodeRuneMeaning(last);
      assert last[..|last|] == last && p[|p| - |last|..] == last;
    }
  }

  lemma CharIsLastRune(p: seq<Byte>, n: nat)
    requires 1 <= n <= 4 && EndsWithChar(p, n)
    ensures DecodeLastRune(p).0 == RUNE_ERROR <==> p[|p| - n..] == [0xEF, 0xBF, 0xBD]
  {
    var end, s := |p|, p[|p| - n..];
    CharDecodes(s);
    assert forall i | 1 <= i < n :: Tail(s[i]);
    assert forall i | end - n < i < end :: p[i] == s[i - (end - n)];
    assert p[end - n] == s[0] && !Tail(s[0]);
    if p[end - 1] <= 0x7F {
      assert n == 1;
    } else {
      assert n >= 2 && LastStart(p) == end - n;
    }
  }

  // ---- Character boundaries --------------------------------------------------

  lemma CharShape(s: seq<Byte>)
    requires IsChar(s)
    ensures |s| == Width(s[0]) && 1 <= |s| <= 4 && !Tail(s[0]) && forall i | 1 <= i < |s| :: Tail(s[i])
  {
  }

  /** `k` is where the text's last lead octet stands. */
  predicate LastLead(text: seq<Byte>, k: nat)
  {
    k < |text| && !Tail(text[k]) && forall i | k < i < |text| :: Tail(text[i])
  }

  lemma CharEndsAtLastLead(text: seq<Byte>, n: nat)
    requires EndsWithChar(text, n)
    ensures n >= 1 && LastLead(text, |text| - n) && Width(text[|text| - n]) == n
  {
    var last := text[|text| - n..];
    CharShape(last);
    assert forall i | |text| - n < i < |text| :: text[i] == last[i - (|text| - n)];
  }

  lemma LastLeadIsUnique(text: seq<Byte>, j: nat, k: nat)
    requires LastLead(text, j) && LastLead(text, k)
    ensures j == k
  {
  }

  /** What a cut leaves behind: nothing, or the beginning of one character. */
  predicate Partial(part: seq<Byte>, rest: seq<Byte>)
  {
    part == [] || (|part| < Width(part[0]) && StartsWithChar(part + rest, Width(part[0])))
  }

  /** A valid text cut anywhere is whole characters and a partial one. */
  lemma {:induction false} CutAnywhere(text: seq<Byte>, rest: seq<Byte>) returns (k: nat)
    requires ValidUtf8(text + rest)
    ensures k <= |text| && ValidUtf8(text[..k]) && Partial(text[k..], rest) && ValidUtf8(text[k..] + rest)
    decreases |text|
  {
    hide IsChar;
    if text == [] || Width(text[0]) > |text| {
      k := 0;
      assert text[0..] == text && (text != [] ==> (text + rest)[0] == text[0]);
    } else {
      var n := Width(text[0]);
      CutSum(text, rest, n);
      CharNotEmpty(text[..n]);
      var j := CutAnywhere(text[n..], rest);
      k := n + j;
      CutTwice(text, n, j);
      PrependChar(text[..n], text[n..][..j]);
    }
  }

  lemma CutTwice(text: seq<Byte>, n: nat, j: nat)
    requires n + j <= |text|
    ensures text[n..][j..] == text[n + j..] && text[..n + j] == text[..n] + text[n..][..j]
  {
  }

  lemma CutSum(text: seq<Byte>, rest: seq<Byte>, n: nat)
    requires n <= |text|
    ensures (text + rest)[..n] == text[..n] && (text + rest)[n..] == text[n..] + rest
  {
  }

  lemma CharNotEmpty(s: seq<Byte>)
    requires IsChar(s)
    ensures s != []
  {
  }

  lemma PrependChar(c: seq<Byte>, s: seq<Byte>)
    requires IsChar(c) && ValidUtf8(s)
    ensures ValidUtf8(c + s)
  {
    CharShape(c);
    assert (c + s)[..|c|] == c && (c + s)[|c|..] == s;
  }

  lemma PartialLead(text: seq<Byte>, k: nat, rest: seq<Byte>)
    requires k < |text| && Partial(text[k..], rest)
    ensures LastLead(text, k) && Width(text[k]) > |text| - k
  {
    var part := text[k..];
    var lead := (part + rest)[..Width(part[0])];
    CharShape(lead);
    assert forall i | k < i < |text| :: text[i] == lead[i - k];
  }

  /** A text that ends in a character does not end in a partial one. */
  lemma NoCharEndsPartial(text: seq<Byte>, k: nat, rest: seq<Byte>, n: nat)
    requires k <= |text| && Partial(text[k..], rest) && EndsWithChar(text, n)
    ensures k == |text|
  {
    hide IsChar, Partial, EndsWithChar;
    CharEndsAtLastLead(text, n);
    if k < |text| {
      PartialLead(text, k, rest);
      assert false;
    }
  }

  lemma {:induction false} ValidEndsInChar(s: seq<Byte>) returns (n: nat)
    requires ValidUtf8(s) && s != []
    ensures 1 <= n <= 4 && EndsWithChar(s, n)
    decreases |s|
  {
    var m := Width(s[0]);
    CharShape(s[..m]);
    if s[m..] == [] {
      n := m;
      assert s[..m] == s && s[|s| - m..] == s;
    } else {
      n := ValidEndsInChar(s[m..]);
      assert s[m..][|s[m..]| - n..] == s[|s| - n..];
    }
  }

  // ---- The theorems ----------------------------------------------------------

  predicate Sound(log: Log, written: seq<Byte>, rest: seq<Byte>)
  {
    && (forall i | 0 <= i < |log.saved| :: ValidUtf8(log.saved[i]) && log.saved[i] != [])
    && Flat(log.saved) + log.dangling == written
    && ValidUtf8(log.dangling + rest)
  }

  lemma WriteIsSound(log: Log, written: seq<Byte>, data: seq<Byte>, rest: seq<Byte>)
    requires Sound(log, written, data + rest)
    ensures Sound(Written(log, data), written + data, rest)
  {
    var text := log.dangling + data;
    assert log.dangling + (data + rest) == text + rest;
    assert Flat(log.saved) + text == written + data;
    if DecodeLastRune(text).0 != RUNE_ERROR {
      LastRuneIsChar(text);
      var k := CutAnywhere(text, rest);
      NoCharEndsPartial(text, k, rest, DecodeLastRune(text).1);
      assert text[..k] == text && text[k..] + rest == [] + rest;
      var after := Written(log, data);
      assert after.saved[..|after.saved| - 1] == log.saved;
      assert Flat(after.saved) + [] == Flat(after.saved);
    }
  }

  /** For every chunking of a valid UTF-8 stream, at every point of it: each
      payload saved so far is valid UTF-8, and the payloads followed by the
      held-back bytes are exactly the bytes written. */
  lemma {:induction false} EveryChunkingIsSound(chunks: seq<seq<Byte>>, rest: seq<Byte>)
    requires ValidUtf8(Flat(chunks) + rest)
    ensures Sound(WrittenAll(Log([], []), chunks), Flat(chunks), rest)
    decreases chunks
  {
    if chunks == [] {
      assert [] + rest == rest && Flat(chunks) + rest == rest;
    } else {
      var init, last := chunks[..|chunks| - 1], chunks[|chunks| - 1];
      assert Flat(init) + (last + rest) == Flat(chunks) + rest;
      EveryChunkingIsSound(init, last + rest);
      WriteIsSound(WrittenAll(Log([], []), init), Flat(init), last, rest);
    }
  }

  predicate EndsInReplacement(s: seq<Byte>)
  {
    |s| >= 3 && s[|s| - 3..] == [0xEF, 0xBF, 0xBD]
  }

  /** Nothing flushes the held-back bytes at the end. On a complete stream they
      are empty, that is the log is complete, exactly when the stream does not end
      in the replacement character U+FFFD, which the writer cannot tell from an
      incomplete one. */
  lemma {:induction false} CompleteUnlessReplacement(chunks: seq<seq<Byte>>)
    requires ValidUtf8(Flat(chunks))
    ensures WrittenAll(Log([], []), chunks).dangling == [] <==> !EndsInReplacement(Flat(chunks))
    decreases chunks
  {
    if chunks != [] {
      hide ValidUtf8, DecodeLastRune, EndsInReplacement;
      var init, data := chunks[..|chunks| - 1], chunks[|chunks| - 1];
      var log := WrittenAll(Log([], []), init);
      assert data + [] == data;
      EveryChunkingIsSound(init, data);
      if log.dangling + data == [] {
        assert Flat(chunks) == Flat(init);
        CompleteUnlessReplacement(init);
        NothingIsNoRune();
      } else {
        WriteCompletes(log, Flat(init), data);
      }
    } else {
      assert !EndsInReplacement([]);
    }
  }

  lemma WriteCompletes(log: Log, written: seq<Byte>, data: seq<Byte>)
    requires Sound(log, written, data) && log.dangling + data != []
    ensures Written(log, data).dangling == [] <==> !EndsInReplacement(written + data)
  {
    hide ValidUtf8, DecodeLastRune, EndsInReplacement;
    var text := log.dangling + data;
    var n := ValidEndsInChar(text);
    CharIsLastRune(text, n);
    SameEnd(Flat(log.saved), text, n);
    assert Flat(log.saved) + text == written + data;
  }

  lemma NothingIsNoRune()
    ensures DecodeLastRune([]).0 == RUNE_ERROR
  {
  }

  /** The last character decides whether a text ends in U+FFFD. */
  lemma SameEnd(before: seq<Byte>, text: seq<Byte>, n: nat)
    requires EndsWithChar(text, n)
    ensures EndsInReplacement(before + text) <==> text[|text| - n..] == [0xEF, 0xBF, 0xBD]
  {
    var all := before + text;
    assert all[|all| - n..] == text[|text| - n..];
    CharEndsAtLastLead(all, n);
    if EndsInReplacement(all) {
      CharEndsAtLastLead(all, 3);
      LastLeadIsUnique(all, |all| - 3, |all| - n);
    }
  }
}
