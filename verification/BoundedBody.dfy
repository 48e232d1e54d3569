/** Reading a body within a limit: the request reader and the two response readers. */
module BoundedBody {
  import opened ByteArrays
  import opened Bytes
  import opened Text
  import opened Wrappers

  /** How many leading chunks stay within a limit. */
  function Accepted(chunks: seq<seq<byte>>, maximum: nat): (n: nat)
    ensures n <= |chunks|
    ensures Total(chunks[..n]) <= maximum
    ensures n < |chunks| ==> Total(chunks[..n]) + |chunks[n]| > maximum
  {
    if chunks == [] || |chunks[0]| > maximum then 0
    else
      var rest := Accepted(chunks[1..], maximum - |chunks[0]|);
      assert chunks[..rest + 1][1..] == chunks[1..][..rest];
      rest + 1
  }

  lemma AcceptedFits(chunks: seq<seq<byte>>, n: nat, maximum: nat)
    requires n <= |chunks| && Total(chunks[..n]) <= maximum
    requires n < |chunks| ==> Total(chunks[..n]) + |chunks[n]| > maximum
    ensures Accepted(chunks, maximum) == n
    ensures n == |chunks| <==> Total(chunks) <= maximum
  {
    hide Accepted, Total, Concat;
    var m := Accepted(chunks, maximum);
    PrefixGrows(chunks, m, n);
    PrefixGrows(chunks, n, m);
    PrefixGrows(chunks, n, |chunks|);
    assert chunks[..|chunks|] == chunks;
  }

  /** A longer prefix is at least as heavy, by the weight of the next chunk. */
  lemma PrefixGrows(chunks: seq<seq<byte>>, m: nat, n: nat)
    requires m <= |chunks| && n <= |chunks|
    ensures m < n ==> Total(chunks[..m]) + |chunks[m]| <= Total(chunks[..n])
  {
    hide Total, Concat;
    if m < n {
      assert chunks[..m + 1] == chunks[..m] + [chunks[m]];
      ConcatLast(chunks[..m], chunks[m]);
      assert chunks[..n] == chunks[..m + 1] + chunks[m + 1..n];
      ConcatSplit(chunks[..m + 1], chunks[m + 1..n]);
    }
  }

  /** Why a read loop stopped. */
  datatype Stop = AtEnd | Excess | Aborted

  /** Where a read loop stops: at an abort it sees, at the part that exceeds the limit, or at the end. */
  function StopOf(parts: seq<seq<byte>>, maximum: nat, abortedFrom: nat): (nat, Stop) {
    var n := Accepted(parts, maximum);
    if abortedFrom < |parts| && abortedFrom <= n then (abortedFrom, Aborted)
    else if n < |parts| then (n, Excess)
    else (n, AtEnd)
  }

  /** The read loop. Parts from `abortedFrom` on are read under an aborted signal, where there is one. */
  method Gather(parts: seq<array<byte>>, maximum: nat, abortedFrom: nat)
    returns (chunks: seq<array<byte>>, total: nat, stop: Stop)
    ensures |chunks| <= |parts| && chunks == parts[..|chunks|]
    ensures (|chunks|, stop) == StopOf(Contents(parts), maximum, abortedFrom)
    ensures stop.AtEnd? ==> chunks == parts && total == Total(Contents(parts)) <= maximum
  {
    hide Total, Concat, Accepted;
    chunks, total, stop := [], 0, AtEnd;
    ghost var c := Contents(parts);
    EmptyTotal(c);
    for n := 0 to |parts|
      invariant chunks == parts[..n]
      invariant total == Total(c[..n]) <= maximum
      invariant stop.AtEnd? && n <= abortedFrom
    {
      if n >= abortedFrom {
        AcceptedAtLeast(c, n, maximum);
        stop := Aborted;
        return;
      }
      PrefixFits(parts, n);
      assert Total(c[..n + 1]) == total + parts[n].Length by {
        assert c[..n + 1] == c[..n] + [c[n]];
        ConcatLast(c[..n], c[n]);
      }
      total := total + parts[n].Length;
      if total > maximum {
        AcceptedFits(c, n, maximum);
        stop := Excess;
        return;
      }
      chunks := chunks + [parts[n]];
    }
    AcceptedFits(c, |parts|, maximum);
    assert c[..|parts|] == c;
  }

  lemma AcceptedAtLeast(chunks: seq<seq<byte>>, n: nat, maximum: nat)
    requires n <= |chunks| && Total(chunks[..n]) <= maximum
    ensures n <= Accepted(chunks, maximum)
  {
    hide Accepted, Total, Concat;
    PrefixGrows(chunks, Accepted(chunks, maximum), n);
  }

  lemma StopAtEnd(parts: seq<seq<byte>>, maximum: nat, abortedFrom: nat)
    ensures StopOf(parts, maximum, abortedFrom).1.AtEnd? <==> Total(parts) <= maximum && abortedFrom >= |parts|
  {
    hide Accepted, Total, Concat;
    AcceptedFits(parts, Accepted(parts, maximum), maximum);
  }

  /** A length header is absent, or a number within the limit. */
  predicate LengthAdmits(header: Option<string>, maximum: nat) {
    header.Some? ==> AllNumerals(header.value) && Number(header.value) <= maximum
  }

  /** The header that a sender writes for its own length never stands in the way of a fitting body. */
  lemma OwnLengthAdmitted(length: nat, maximum: nat)
    ensures LengthAdmits(Some(Digits(length)), maximum) <==> length <= maximum
  {
    NumberOfDigits(length);
  }

  /** How the read after the last part comes out: done since the body is complete, done since cancelling
      cut it off, or failed. */
  datatype Ending = Complete | Cut | Broken

  /** The reads of a body: its parts, the first one read under an aborted signal, and how they end. */
  datatype Body = Body(parts: seq<array<byte>>, abortedFrom: nat, ending: Ending)

  /** A missing body has no parts. */
  function Parts(body: Option<Body>): seq<array<byte>> {
    if body.None? then [] else body.value.parts
  }

  function AbortedFrom(body: Option<Body>): nat {
    if body.None? then 0 else body.value.abortedFrom
  }

  function EndingOf(body: Option<Body>): Ending {
    if body.None? then Complete else body.value.ending
  }

  /** How many parts the request reader takes in, and what it answers. */
  function RequestOutcome(header: Option<string>, parts: seq<seq<byte>>, abortedFrom: nat, ending: Ending, maximum: nat)
    : (nat, Option<string>)
  {
    if header.Some? && !AllNumerals(header.value) then (0, Some("validation_failed"))
    else if !LengthAdmits(header, maximum) then (0, Some("request_too_large"))
    else
      match StopOf(parts, maximum, abortedFrom)
      case (n, Aborted) => (n, Some("request_timeout"))
      case (n, Excess) => (n, Some("request_too_large"))
      case (n, AtEnd) => (n, if ending.Broken? then Some("validation_failed") else None)
  }

  /**
    The parts taken in are those before the first abort or excess, whichever comes first; the answer says which
    it was. A header that admits nothing leaves all of them alone.
   */
  lemma TakenInExactly(header: Option<string>, parts: seq<seq<byte>>, abortedFrom: nat, ending: Ending, maximum: nat,
                       n: nat, answer: Option<string>)
    ensures RequestOutcome(header, parts, abortedFrom, ending, maximum) == (n, answer) <==>
            if header.Some? && !AllNumerals(header.value) then n == 0 && answer == Some("validation_failed")
            else if header.Some? && Number(header.value) > maximum then n == 0 && answer == Some("request_too_large")
            else
              && n <= |parts| && n <= abortedFrom && Total(parts[..n]) <= maximum
              && (n < |parts| && n < abortedFrom ==>
                    Total(parts[..n]) + |parts[n]| > maximum && answer == Some("request_too_large"))
              && (n < |parts| && n == abortedFrom ==> answer == Some("request_timeout"))
              && (n == |parts| ==> answer == if ending == Broken then Some("validation_failed") else None)
  {
    hide Total, Concat, Accepted, Number, AllNumerals;
    var m := Accepted(parts, maximum);
    if n <= |parts| && Total(parts[..n]) <= maximum {
      AcceptedAtLeast(parts, n, maximum);
      if n < |parts| && Total(parts[..n]) + |parts[n]| > maximum {
        AcceptedFits(parts, n, maximum);
      }
    }
    if abortedFrom <= m {
      PrefixGrows(parts, abortedFrom, m);
    }
  }

  /** The request reader succeeds exactly on an admitted, fitting body that ends before a part comes after an
      abort; it does not ask whether the end is that of the body. */
  lemma RequestSucceeds(header: Option<string>, parts: seq<seq<byte>>, abortedFrom: nat, ending: Ending, maximum: nat)
    ensures RequestOutcome(header, parts, abortedFrom, ending, maximum).1.None? <==>
              LengthAdmits(header, maximum) && Total(parts) <= maximum && abortedFrom >= |parts| && !ending.Broken?
  {
    hide Number, Total, Concat, Accepted, StopOf;
    StopAtEnd(parts, maximum, abortedFrom);
  }

  /**
    The request reader. Each part taken in is overwritten, on success and on every refusal; the part that
    exceeds the limit or comes after an abort, and those behind it, are left alone.
   */
  method RequestBody(header: Option<string>, body: Option<Body>, maximum: nat) returns (r: Result<array<byte>>)
    requires Unaliased(Parts(body))
    modifies Parts(body)
    ensures var (n, refusal) :=
              RequestOutcome(header, old(Contents(Parts(body))), AbortedFrom(body), EndingOf(body), maximum);
            && (refusal.Some? ==> r == Err(refusal.value))
            && (refusal.None? ==> r.Ok? && fresh(r.value) && r.value[..] == old(Concat(Contents(Parts(body)))))
            && (forall i | 0 <= i < n && i < |Parts(body)| :: Zeroed(Parts(body)[i][..]))
            && (forall i | n <= i < |Parts(body)| :: Parts(body)[i][..] == old(Parts(body)[i][..]))
  {
    hide Total, Concat, Accepted, Number, StopOf;
    if header.Some? && !AllNumerals(header.value) {
      return Err("validation_failed");
    }
    if header.Some? && Number(header.value) > maximum {
      return Err("request_too_large");
    }
    if body.None? {
      NoParts(maximum);
      var none := new byte[0];
      assert Contents(Parts(body)) == [];
      return Ok(none);
    }
    r := ReadParts(body.value, maximum);
  }

  /** The loop and what follows it, once the header has been admitted. */
  method ReadParts(body: Body, maximum: nat) returns (r: Result<array<byte>>)
    requires Unaliased(body.parts)
    modifies body.parts
    ensures var (n, stop) := StopOf(old(Contents(body.parts)), maximum, body.abortedFrom);
            && (stop.AtEnd? && !body.ending.Broken? ==>
                  r.Ok? && fresh(r.value) && r.value[..] == old(Concat(Contents(body.parts))))
            && (stop.AtEnd? && body.ending.Broken? ==> r == Err("validation_failed"))
            && (stop.Aborted? ==> r == Err("request_timeout"))
            && (stop.Excess? ==> r == Err("request_too_large"))
            && (forall i | 0 <= i < n && i < |body.parts| :: Zeroed(body.parts[i][..]))
            && (forall i | n <= i < |body.parts| :: body.parts[i][..] == old(body.parts[i][..]))
  {
    hide Total, Concat, StopOf;
    var chunks, total, stop := Gather(body.parts, maximum, body.abortedFrom);
    if !stop.AtEnd? || body.ending.Broken? {
      FillAll(chunks);
      return Err(
        if stop.Aborted? then "request_timeout"
        else if stop.Excess? then "request_too_large"
        else "validation_failed");
    }
    var output := AssembleAndFill(chunks, total);
    FillAll(chunks);
    r := Ok(output);
  }

  lemma NoParts(maximum: nat)
    ensures StopOf([], maximum, 0) == (0, AtEnd) && Concat<byte>([]) == []
  {
  }

  /** Copies each chunk to its place and overwrites it at once. */
  method AssembleAndFill(chunks: seq<array<byte>>, total: nat) returns (output: array<byte>)
    requires Unaliased(chunks) && total == Total(Contents(chunks))
    modifies chunks
    ensures fresh(output) && output[..] == old(Concat(Contents(chunks)))
    ensures forall i | 0 <= i < |chunks| :: Zeroed(chunks[i][..])
  {
    hide Concat, Total;
    output := new byte[total];
    var offset := 0;
    ghost var c := Contents(chunks);
    EmptyTotal(c);
    for n := 0 to |chunks|
      invariant offset == Total(c[..n]) <= total
      invariant output[..offset] == Concat(c[..n])
      invariant forall i | 0 <= i < n :: Zeroed(chunks[i][..])
      invariant forall i | n <= i < |chunks| :: chunks[i][..] == c[i]
    {
      NextFits(c, n);
      Set(output, chunks[n], offset);
      offset := offset + chunks[n].Length;
      Fill(chunks[n]);
    }
    assert c[..|chunks|] == c;
    assert output[..] == output[..offset];
  }

  lemma NextFits(c: seq<seq<byte>>, n: nat)
    requires n < |c|
    ensures Concat(c[..n + 1]) == Concat(c[..n]) + c[n]
    ensures Total(c[..n + 1]) == Total(c[..n]) + |c[n]| <= Total(c)
  {
    hide Concat, Total;
    assert c[..n + 1] == c[..n] + [c[n]];
    ConcatLast(c[..n], c[n]);
    assert c == c[..n + 1] + c[n + 1..];
    ConcatSplit(c[..n + 1], c[n + 1..]);
  }

  /** The release probe's reader; `decode` is fatal UTF-8 decoding. No part is changed. */
  method ProbeBody(header: Option<string>, body: Option<Body>, maximum: nat, decode: seq<byte> -> Option<string>)
    returns (r: Result<string>)
    ensures r == (if header.Some? && !AllNumerals(header.value) then Err("content_length_invalid")
                  else if !LengthAdmits(header, maximum) then Err("body_too_large")
                  else if body.None? then Err("body_missing")
                  else if Total(Contents(body.value.parts)) > maximum then Err("body_too_large")
                  else if body.value.ending.Broken? then Err("body_read_failed")
                  else match decode(Concat(Contents(body.value.parts)))
                       case None => Err("body_invalid_utf8")
                       case Some(text) => Ok(text))
  {
    hide Total, Concat, Accepted, Number, StopOf;
    if header.Some? && (!AllNumerals(header.value) || Number(header.value) > maximum) {
      return Err(if AllNumerals(header.value) then "body_too_large" else "content_length_invalid");
    }
    if body.None? {
      return Err("body_missing");
    }
    var parts := body.value.parts;
    StopAtEnd(Contents(parts), maximum, |parts|);
    var chunks, total, stop := Gather(parts, maximum, |parts|);
    if !stop.AtEnd? {
      return Err("body_too_large");
    }
    if body.value.ending.Broken? {
      return Err("body_read_failed");
    }
    var bytes := Assemble(chunks, total);
    var text := decode(bytes[..]);
    r := if text.None? then Err("body_invalid_utf8") else Ok(text.value);
  }

  function BeforeSemicolon(s: string): string {
    if s == [] || s[0] == ';' then [] else [s[0]] + BeforeSemicolon(s[1..])
  }

  /** The media type before any parameters; `trim` strips white space. */
  predicate JsonMedia(contentType: Option<string>, trim: string -> string) {
    contentType.Some? && trim(BeforeSemicolon(contentType.value)) == "application/json"
  }

  lemma {:induction false} MediaParameters(mediaType: string, parameters: string)
    requires ';' !in mediaType
    ensures BeforeSemicolon(mediaType + ";" + parameters) == BeforeSemicolon(mediaType) == mediaType
  {
    if mediaType == [] {
      assert (mediaType + ";" + parameters)[0] == ';';
    } else {
      MediaParameters(mediaType[1..], parameters);
      assert (mediaType + ";" + parameters)[1..] == mediaType[1..] + ";" + parameters;
    }
  }

  /** The media type has to be that of JSON; its parameters, whatever they are, make no difference. */
  lemma MediaExactly(mediaType: string, parameters: string, trim: string -> string)
    requires ';' !in mediaType
    ensures JsonMedia(Some(mediaType), trim) <==> trim(mediaType) == "application/json"
    ensures JsonMedia(Some(mediaType + ";" + parameters), trim) <==> trim(mediaType) == "application/json"
    ensures !JsonMedia(None, trim)
  {
    MediaParameters(mediaType, parameters);
  }

  /** The seed client's reader; a read that fails surfaces as an unexpected failure. */
  method SeedBody(contentType: Option<string>, trim: string -> string, header: Option<string>, body: Option<Body>,
                  maximum: nat)
    returns (r: Result<array<byte>>)
    ensures r.Ok? <==>
              && JsonMedia(contentType, trim) && LengthAdmits(header, maximum) && body.Some?
              && Total(Contents(body.value.parts)) <= maximum && !body.value.ending.Broken?
    ensures r.Ok? ==> fresh(r.value) && r.value[..] == Concat(Contents(body.value.parts))
    ensures r.Err? ==> r.code ==
                         if !JsonMedia(contentType, trim) then "invalid_response_media_type"
                         else if !LengthAdmits(header, maximum) then "response_too_large"
                         else if body.None? then "malformed_api_response"
                         else if Total(Contents(body.value.parts)) > maximum then "response_too_large"
                         else "unexpected_failure"
  {
    hide Total, Concat, Accepted, Number, StopOf;
    if !JsonMedia(contentType, trim) {
      return Err("invalid_response_media_type");
    }
    if header.Some? && (!AllNumerals(header.value) || Number(header.value) > maximum) {
      return Err("response_too_large");
    }
    if body.None? {
      return Err("malformed_api_response");
    }
    var parts := body.value.parts;
    StopAtEnd(Contents(parts), maximum, |parts|);
    var chunks, total, stop := Gather(parts, maximum, |parts|);
    if !stop.AtEnd? {
      return Err("response_too_large");
    }
    if body.value.ending.Broken? {
      return Err("unexpected_failure");
    }
    var bytes := Assemble(chunks, total);
    r := Ok(bytes);
  }
}
