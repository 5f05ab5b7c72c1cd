/** internal/ikconfig's Extract: cutting the embedded config out of a kernel image. */
module Extract {
  import opened Wrappers
  import opened Text

  const START_MARKER := "IKCFG_ST"
  const END_MARKER := "IKCFG_ED"

  datatype ExtractError = NoConfig | BadStream

  /** Where `mark` first occurs in `s`, if it does. */
  function Find(s: string, mark: string): (r: Option<nat>)
    ensures r.Some? ==> r.value + |mark| <= |s| && HasPrefix(s[r.value..], mark)
    ensures r.Some? ==> forall i :: 0 <= i < r.value ==> !HasPrefix(s[i..], mark)
    ensures r.None? ==> !Contains(s, mark)
  {
    if HasPrefix(s, mark) then
      assert s[0..] == s;
      Some(0)
    else if s == "" then None
    else
      var rest := Find(s[1..], mark);
      assert forall i :: 1 <= i <= |s| ==> s[i..] == s[1..][i - 1..];
      assert s[0..] == s;
      match rest
      case Some(i) => Some(i + 1)
      case None => None
  }

  /** bytes.Cut: before, after, found. */
  function Cut(s: string, mark: string): (string, string, bool) {
    match Find(s, mark)
    case Some(i) => (s[..i], s[i + |mark|..], true)
    case None => (s, "", false)
  }

  /** Extract, over a decoder for the compressed stream. */
  function ExtractConfig(image: string, decode: string -> Option<string>): Result<string, ExtractError> {
    var (_, stream, found) := Cut(image, START_MARKER);
    if !found then Err(NoConfig)
    else
      var (bounded, _, _) := Cut(stream, END_MARKER);
      match decode(bounded)
      case Some(config) => Ok(config)
      case None => Err(BadStream)
  }

  /** A marker whose first byte does not come back in it cannot overlap itself. */
  predicate Unbordered(mark: string) {
    mark != "" && mark[0] !in mark[1..]
  }

  lemma {:induction false} MarkersUnbordered()
    ensures Unbordered(START_MARKER) && Unbordered(END_MARKER)
  {
  }

  /** Before the seam there is no occurrence: not inside bytes free of the marker, and not across
      their end, since the marker's first byte stands there and nowhere else in it. */
  lemma {:induction false} NoneBeforeSeam(lead: string, mark: string, rest: string, i: nat)
    requires Unbordered(mark) && !Contains(lead, mark) && i < |lead|
    ensures !HasPrefix((lead + mark + rest)[i..], mark)
  {
    var s := lead + mark + rest;
    if i + |mark| <= |lead| {
      assert s[i..][..|mark|] == lead[i..][..|mark|];
      assert !HasPrefix(lead[i..], mark);
    } else {
      var k := |lead| - i;
      assert s[i..][k] == s[|lead|] == mark[0];
      assert mark[k] == mark[1..][k - 1];
      PrefixChar(s[i..], mark, k);
    }
  }

  /** The marker written behind such bytes is the first one. */
  lemma {:induction false} FirstAtSeam(lead: string, mark: string, rest: string)
    requires Unbordered(mark) && !Contains(lead, mark)
    ensures Find(lead + mark + rest, mark) == Some(|lead|)
  {
    var s := lead + mark + rest;
    assert s[|lead|..] == mark + rest;
    assert HasPrefix(s[|lead|..], mark);
    forall i | 0 <= i < |lead| ensures !HasPrefix(s[i..], mark) {
      NoneBeforeSeam(lead, mark, rest, i);
    }
  }

  /** Extract undoes the embedding: with no start marker in the bytes before it and no end marker
      in the stream, the decoder is handed exactly the stream, whatever follows. */
  lemma {:induction false} ExtractUndoesEmbedding(
    before: string, stream: string, after: string, decode: string -> Option<string>)
    requires !Contains(before, START_MARKER) && !Contains(stream, END_MARKER)
    ensures ExtractConfig(before + START_MARKER + stream + END_MARKER + after, decode)
         == match decode(stream) { case Some(config) => Ok(config) case None => Err(BadStream) }
  {
    MarkersUnbordered();
    var tail := stream + END_MARKER + after;
    var image := before + START_MARKER + stream + END_MARKER + after;
    assert image == before + START_MARKER + tail;
    FirstAtSeam(before, START_MARKER, tail);
    assert image[|before| + |START_MARKER|..] == tail;
    FirstAtSeam(stream, END_MARKER, after);
    assert tail[..|stream|] == stream;
  }

  lemma {:induction false} CutIs(s: string, mark: string)
    requires mark != ""
    ensures var (a, b, found) := Cut(s, mark);
            && !Contains(a, mark)
            && s == (if found then a + mark + b else a)
            && (found <==> Contains(s, mark))
  {
    match Find(s, mark) {
      case None =>
      case Some(i) =>
        var lead := s[..i];
        forall j | 0 <= j <= |lead| ensures !HasPrefix(lead[j..], mark) {
          if j + |mark| <= |lead| {
            assert lead[j..][..|mark|] == s[j..][..|mark|];
            assert !HasPrefix(s[j..], mark);
          }
        }
        assert s[i..][..|mark|] == s[i..i + |mark|];
        assert s == lead + s[i..i + |mark|] + s[i + |mark|..];
    }
  }

  /** The image holds `stream` behind its first start marker, up to the first end marker after it or,
      for want of one, to its end. */
  ghost predicate Embeds(image: string, before: string, stream: string, after: string) {
    && image == before + START_MARKER + stream + after
    && !Contains(before, START_MARKER) && !Contains(stream, END_MARKER)
    && (after == "" || HasPrefix(after, END_MARKER))
  }

  /** Extract on every image there is: without a start marker it reports no config, and otherwise the
      decoder gets the embedded stream. */
  lemma {:induction false} ExtractIs(image: string, decode: string -> Option<string>)
    returns (before: string, stream: string, after: string)
    ensures if Contains(image, START_MARKER) then
              Embeds(image, before, stream, after)
              && ExtractConfig(image, decode)
              == match decode(stream) { case Some(config) => Ok(config) case None => Err(BadStream) }
            else ExtractConfig(image, decode) == Err(NoConfig)
  {
    CutIs(image, START_MARKER);
    var (lead, tail, found) := Cut(image, START_MARKER);
    before, stream, after := lead, "", "";
    if found {
      CutIs(tail, END_MARKER);
      var (bounded, more, ended) := Cut(tail, END_MARKER);
      stream, after := bounded, if ended then END_MARKER + more else "";
      Reassemble(lead, tail, bounded, more, ended);
    }
  }

  lemma {:induction false} Reassemble(lead: string, tail: string, bounded: string, more: string, ended: bool)
    requires tail == if ended then bounded + END_MARKER + more else bounded
    ensures var after := if ended then END_MARKER + more else "";
            && lead + START_MARKER + tail == lead + START_MARKER + bounded + after
            && (after == "" || HasPrefix(after, END_MARKER))
  {
    if ended {
      assert bounded + END_MARKER + more == bounded + (END_MARKER + more);
    }
  }

  /** An image cut short inside the stream still goes to the decoder, which sees all that is left. */
  lemma {:induction false} MissingEndMarker(before: string, stream: string, decode: string -> Option<string>)
    requires !Contains(before, START_MARKER) && !Contains(stream, END_MARKER)
    ensures ExtractConfig(before + START_MARKER + stream, decode)
         == match decode(stream) { case Some(config) => Ok(config) case None => Err(BadStream) }
  {
    MarkersUnbordered();
    FirstAtSeam(before, START_MARKER, stream);
    var image := before + START_MARKER + stream;
    assert image[|before| + |START_MARKER|..] == stream;
    assert Find(stream, END_MARKER).Some? ==> Contains(stream, END_MARKER);
  }
}
