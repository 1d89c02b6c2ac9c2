/** The `git cat-file --batch` reader: docs/verification/issue-328-d5-read-snapshot-evidence/recompute-migration-audit.ts. */
module BlobBatch {
  import opened Options
  import opened JsonText

  const NEWLINE: Byte := 10
  const SPACE: CodeUnit := 0x20
  const BLOB: Text := U("blob")

  datatype Entry = Entry(path: Text, mode: Text, oid: Text)
  datatype Blob = Blob(bytes: seq<Byte>, mode: Text)

  // ---------------------------------------------------------------------------------------------
  // Headers

  // ASCII decoding drops the high bit.
  function Ascii(bytes: seq<Byte>): (t: Text)
    ensures |t| == |bytes| && forall i :: 0 <= i < |bytes| ==> t[i] == bytes[i] % 0x80
  {
    seq(|bytes|, i requires 0 <= i < |bytes| => bytes[i] % 0x80)
  }

  function Split(t: Text): (pieces: seq<Text>)
    ensures pieces != []
  {
    if t == [] then [[]]
    else
      var rest := Split(t[1..]);
      if t[0] == SPACE then [[]] + rest else [[t[0]] + rest[0]] + rest[1..]
  }

  // The position of the first newline at or after the start.
  function NewlineFrom(bytes: seq<Byte>, start: nat): (end: Option<nat>)
    requires start <= |bytes|
    ensures end.Some? ==> start <= end.value < |bytes| && bytes[end.value] == NEWLINE
    ensures end.Some? ==> forall i :: start <= i < end.value ==> bytes[i] != NEWLINE
    ensures end.None? ==> forall i :: start <= i < |bytes| ==> bytes[i] != NEWLINE
    decreases |bytes| - start
  {
    if start == |bytes| then None
    else if bytes[start] == NEWLINE then Some(start)
    else NewlineFrom(bytes, start + 1)
  }

  // The length a header announces for an object. How the runtime reads a numeral is a parameter:
  // it gives a value exactly when the text denotes a safe integer that is not negative.
  function HeaderLength(header: seq<Byte>, oid: Text, numberOf: Text -> Option<nat>): Option<nat> {
    var pieces := Split(Ascii(header));
    if |pieces| < 3 || pieces[0] != oid || pieces[1] != BLOB then None else numberOf(pieces[2])
  }

  // ---------------------------------------------------------------------------------------------
  // Frames

  function Frame(header: seq<Byte>, body: seq<Byte>): seq<Byte> { header + [NEWLINE] + body + [NEWLINE] }

  function Frames(headers: seq<seq<Byte>>, bodies: seq<seq<Byte>>): seq<Byte>
    requires |headers| == |bodies|
  {
    if headers == [] then []
    else
      var n := |headers| - 1;
      Frames(headers[..n], bodies[..n]) + Frame(headers[n], bodies[n])
  }

  ghost predicate HeaderFor(header: seq<Byte>, body: seq<Byte>, entry: Entry, numberOf: Text -> Option<nat>) {
    NEWLINE !in header && HeaderLength(header, entry.oid, numberOf) == Some(|body|)
  }

  /** The batch is the frames of the entries, in order, with no byte left over. */
  ghost predicate Tiled(batch: seq<Byte>, entries: seq<Entry>, headers: seq<seq<Byte>>, bodies: seq<seq<Byte>>,
                        numberOf: Text -> Option<nat>)
  {
    |headers| == |bodies| == |entries| && batch == Frames(headers, bodies) &&
    forall i :: 0 <= i < |entries| ==> HeaderFor(headers[i], bodies[i], entries[i], numberOf)
  }

  // The Map from path to blob; a later entry replaces an earlier one.
  function Files(entries: seq<Entry>, bodies: seq<seq<Byte>>): map<Text, Blob>
    requires |entries| == |bodies|
  {
    if entries == [] then map[]
    else
      var n := |entries| - 1;
      Files(entries[..n], bodies[..n])[entries[n].path := Blob(bodies[n], entries[n].mode)]
  }

  // ---------------------------------------------------------------------------------------------
  // One frame can be read in one way only

  lemma {:induction false} FramesAppend(headers: seq<seq<Byte>>, bodies: seq<seq<Byte>>, k: nat)
    requires |headers| == |bodies| && k <= |headers|
    ensures |Frames(headers[..k], bodies[..k])| <= |Frames(headers, bodies)|
    ensures Frames(headers[..k], bodies[..k]) == Frames(headers, bodies)[..|Frames(headers[..k], bodies[..k])|]
    decreases |headers|
  {
    if k == |headers| {
      assert headers[..k] == headers && bodies[..k] == bodies;
    } else {
      var n := |headers| - 1;
      FramesAppend(headers[..n], bodies[..n], k);
      assert headers[..n][..k] == headers[..k] && bodies[..n][..k] == bodies[..k];
    }
  }

  // The frame at an offset, cut out by any tiling.
  lemma FrameAt(batch: seq<Byte>, headers: seq<seq<Byte>>, bodies: seq<seq<Byte>>, k: nat, offset: nat)
    requires |headers| == |bodies| && k < |headers| && batch == Frames(headers, bodies)
    requires offset == |Frames(headers[..k], bodies[..k])|
    ensures offset + |Frame(headers[k], bodies[k])| <= |batch|
    ensures batch[offset..offset + |Frame(headers[k], bodies[k])|] == Frame(headers[k], bodies[k])
    ensures |Frames(headers[..k + 1], bodies[..k + 1])| == offset + |Frame(headers[k], bodies[k])|
  {
    FramesAppend(headers, bodies, k + 1);
    assert headers[..k + 1][..k] == headers[..k] && bodies[..k + 1][..k] == bodies[..k];
    var upTo := Frames(headers[..k + 1], bodies[..k + 1]);
    assert upTo == Frames(headers[..k], bodies[..k]) + Frame(headers[k], bodies[k]);
    assert batch[offset..|upTo|] == upTo[offset..];
  }

  // What reading at the offset of a frame meets: its header, its body and the newline after it.
  ghost predicate FrameHere(batch: seq<Byte>, offset: nat, header: seq<Byte>, body: seq<Byte>) {
    offset + |header| + 1 + |body| < |batch| && NewlineFrom(batch, offset) == Some(offset + |header|) &&
    batch[offset..offset + |header|] == header &&
    batch[offset + |header| + 1..offset + |header| + 1 + |body|] == body &&
    batch[offset + |header| + 1 + |body|] == NEWLINE
  }

  lemma Slice(batch: seq<Byte>, offset: nat, length: nat, a: nat, b: nat)
    requires offset + length <= |batch| && a <= b <= length
    ensures batch[offset..offset + length][a..b] == batch[offset + a..offset + b]
  {
    var x, y := batch[offset..offset + length][a..b], batch[offset + a..offset + b];
    forall i | 0 <= i < b - a ensures x[i] == y[i] {}
  }

  // The frame at an offset is determined by the batch and the entry.
  lemma FrameUnique(batch: seq<Byte>, offset: nat, h: seq<Byte>, b: seq<Byte>, header: seq<Byte>, body: seq<Byte>,
                    entry: Entry, numberOf: Text -> Option<nat>)
    requires FrameHere(batch, offset, h, b) && HeaderFor(h, b, entry, numberOf)
    requires FrameHere(batch, offset, header, body) && HeaderFor(header, body, entry, numberOf)
    ensures h == header && b == body
  {}

  lemma FrameRead(batch: seq<Byte>, header: seq<Byte>, body: seq<Byte>, offset: nat)
    requires NEWLINE !in header && offset + |Frame(header, body)| <= |batch|
    requires batch[offset..offset + |Frame(header, body)|] == Frame(header, body)
    ensures FrameHere(batch, offset, header, body)
  {
    var frame, h := Frame(header, body), |header|;
    var window := batch[offset..offset + |frame|];
    Slice(batch, offset, |frame|, 0, h);
    Slice(batch, offset, |frame|, h + 1, h + 1 + |body|);
    assert frame[0..h] == header && frame[h + 1..h + 1 + |body|] == body;
    assert window[h] == batch[offset + h] && frame[h] == NEWLINE;
    assert window[h + 1 + |body|] == batch[offset + h + 1 + |body|] && frame[h + 1 + |body|] == NEWLINE;
    hide Frame;
    HeaderEnds(batch, header, offset);
  }

  // The first newline after an offset is where a header without newlines ends.
  lemma HeaderEnds(batch: seq<Byte>, header: seq<Byte>, offset: nat)
    requires NEWLINE !in header && offset + |header| < |batch| && batch[offset..offset + |header|] == header
    requires batch[offset + |header|] == NEWLINE
    ensures NewlineFrom(batch, offset) == Some(offset + |header|)
  {
    forall i | offset <= i < offset + |header| ensures batch[i] != NEWLINE {
      assert batch[i] == header[i - offset];
    }
  }

  // Every tiling has its next frame at the offset its read frames end at.
  lemma TiledFrame(batch: seq<Byte>, entries: seq<Entry>, headers: seq<seq<Byte>>, bodies: seq<seq<Byte>>,
                   numberOf: Text -> Option<nat>, k: nat, offset: nat)
    requires Tiled(batch, entries, headers, bodies, numberOf) && k < |entries|
    requires offset == |Frames(headers[..k], bodies[..k])|
    ensures FrameHere(batch, offset, headers[k], bodies[k]) && HeaderFor(headers[k], bodies[k], entries[k], numberOf)
  {
    FrameAt(batch, headers, bodies, k, offset);
    FrameRead(batch, headers[k], bodies[k], offset);
  }

  // One frame: a header line for this object, the announced number of bytes, a newline.
  function ReadFrame(batch: seq<Byte>, offset: nat, oid: Text, numberOf: Text -> Option<nat>): Option<(seq<Byte>, seq<Byte>)>
    requires offset <= |batch|
  {
    var end :- NewlineFrom(batch, offset);
    var length :- HeaderLength(batch[offset..end], oid, numberOf);
    var start := end + 1;
    if start + length >= |batch| || batch[start + length] != NEWLINE then None
    else Some((batch[offset..end], batch[start..start + length]))
  }

  lemma ReadFrameIff(batch: seq<Byte>, offset: nat, entry: Entry, numberOf: Text -> Option<nat>, h: seq<Byte>, b: seq<Byte>)
    requires offset <= |batch|
    ensures ReadFrame(batch, offset, entry.oid, numberOf) == Some((h, b)) <==>
            FrameHere(batch, offset, h, b) && HeaderFor(h, b, entry, numberOf)
  {
    hide HeaderLength;
  }

  // A read frame extends what has been cut so far.
  lemma CutGrows(batch: seq<Byte>, offset: nat, headers: seq<seq<Byte>>, bodies: seq<seq<Byte>>, h: seq<Byte>, b: seq<Byte>)
    requires |headers| == |bodies| && offset <= |batch| && batch[..offset] == Frames(headers, bodies)
    requires FrameHere(batch, offset, h, b)
    ensures offset + |Frame(h, b)| <= |batch| && batch[..offset + |Frame(h, b)|] == Frames(headers + [h], bodies + [b])
  {
    hide Frames;
    FramesGrow(headers, bodies, h, b);
    FrameCut(batch, offset, h, b);
    hide FrameHere, Frame;
    assert batch[..offset + |Frame(h, b)|] == batch[..offset] + batch[offset..offset + |Frame(h, b)|];
  }

  lemma FramesGrow(headers: seq<seq<Byte>>, bodies: seq<seq<Byte>>, h: seq<Byte>, b: seq<Byte>)
    requires |headers| == |bodies|
    ensures Frames(headers + [h], bodies + [b]) == Frames(headers, bodies) + Frame(h, b)
  {
    assert (headers + [h])[..|headers|] == headers && (bodies + [b])[..|bodies|] == bodies;
  }

  lemma FrameCut(batch: seq<Byte>, offset: nat, h: seq<Byte>, b: seq<Byte>)
    requires FrameHere(batch, offset, h, b)
    ensures offset + |Frame(h, b)| <= |batch| && batch[offset..offset + |Frame(h, b)|] == Frame(h, b)
  {
    var frame := Frame(h, b);
    var end, start := offset + |h|, offset + |h| + 1;
    assert batch[offset..offset + |frame|]
           == batch[offset..end] + [batch[end]] + batch[start..start + |b|] + [batch[start + |b|]];
  }

  // All tilings agree with the frames read so far.
  ghost predicate Forced(batch: seq<Byte>, entries: seq<Entry>, headers: seq<seq<Byte>>, bodies: seq<seq<Byte>>,
                         numberOf: Text -> Option<nat>, k: nat)
    requires k <= |entries|
  {
    forall hs, bs :: Tiled(batch, entries, hs, bs, numberOf) ==> hs[..k] == headers && bs[..k] == bodies
  }

  lemma ForcedStep(batch: seq<Byte>, entries: seq<Entry>, headers: seq<seq<Byte>>, bodies: seq<seq<Byte>>,
                   numberOf: Text -> Option<nat>, k: nat, offset: nat)
    requires k < |entries| && |headers| == |bodies| && Forced(batch, entries, headers, bodies, numberOf, k)
    requires offset <= |batch| && batch[..offset] == Frames(headers, bodies)
    ensures var frame := ReadFrame(batch, offset, entries[k].oid, numberOf);
            if frame.None? then forall hs, bs :: !Tiled(batch, entries, hs, bs, numberOf)
            else Forced(batch, entries, headers + [frame.value.0], bodies + [frame.value.1], numberOf, k + 1)
  {
    hide Tiled, Frames, ReadFrame;
    forall hs, bs | Tiled(batch, entries, hs, bs, numberOf)
      ensures k < |hs| && k < |bs| && ReadFrame(batch, offset, entries[k].oid, numberOf) == Some((hs[k], bs[k]))
      ensures hs[..k + 1] == headers + [hs[k]] && bs[..k + 1] == bodies + [bs[k]]
    {
      TiledRead(batch, entries, hs, bs, numberOf, k, offset, headers, bodies);
      OneMore(hs, headers, k);
      OneMore(bs, bodies, k);
    }
  }

  lemma OneMore<T>(s: seq<T>, init: seq<T>, k: nat)
    requires k < |s| && s[..k] == init
    ensures s[..k + 1] == init + [s[k]]
  {}

  // A tiling that agrees with the frames read so far agrees with the next one.
  lemma TiledRead(batch: seq<Byte>, entries: seq<Entry>, hs: seq<seq<Byte>>, bs: seq<seq<Byte>>, numberOf: Text -> Option<nat>,
                  k: nat, offset: nat, headers: seq<seq<Byte>>, bodies: seq<seq<Byte>>)
    requires k < |entries| && Tiled(batch, entries, hs, bs, numberOf) && hs[..k] == headers && bs[..k] == bodies
    requires offset <= |batch| && batch[..offset] == Frames(headers, bodies)
    ensures k < |hs| && k < |bs| && ReadFrame(batch, offset, entries[k].oid, numberOf) == Some((hs[k], bs[k]))
  {
    hide FrameHere, HeaderFor, Frames, ReadFrame;
    assert |batch[..offset]| == offset;
    TiledFrame(batch, entries, hs, bs, numberOf, k, offset);
    ReadFrameIff(batch, offset, entries[k], numberOf, hs[k], bs[k]);
  }

  method BlobsAt(batch: seq<Byte>, entries: seq<Entry>, numberOf: Text -> Option<nat>)
    returns (result: Option<map<Text, Blob>>, ghost headers: seq<seq<Byte>>, ghost bodies: seq<seq<Byte>>)
    ensures result.Some? ==> Tiled(batch, entries, headers, bodies, numberOf) && result.value == Files(entries, bodies)
    ensures result.None? ==> forall hs, bs :: !Tiled(batch, entries, hs, bs, numberOf)
  {
    hide Frames, HeaderFor, ReadFrame, FrameHere, Forced, Files;
    var files: map<Text, Blob> := map[];
    var offset: nat := 0;
    headers, bodies := [], [];
    NothingRead(batch, entries, numberOf);
    for k := 0 to |entries|
      invariant offset <= |batch| && |headers| == |bodies| == k && batch[..offset] == Frames(headers, bodies)
      invariant forall i :: 0 <= i < k ==> HeaderFor(headers[i], bodies[i], entries[i], numberOf)
      invariant files == Files(entries[..k], bodies)
      invariant Forced(batch, entries, headers, bodies, numberOf, k)
    {
      ForcedStep(batch, entries, headers, bodies, numberOf, k, offset);
      var frame := ReadFrame(batch, offset, entries[k].oid, numberOf);
      if frame.None? { return None, headers, bodies; }
      var header, body := frame.value.0, frame.value.1;
      ReadFrameIff(batch, offset, entries[k], numberOf, header, body);
      CutGrows(batch, offset, headers, bodies, header, body);
      FilesGrow(entries, k, bodies, body);
      files := files[entries[k].path := Blob(body, entries[k].mode)];
      headers, bodies := headers + [header], bodies + [body];
      offset := offset + |Frame(header, body)|;
    }
    assert entries[..|entries|] == entries;
    if offset == |batch| {
      assert batch[..offset] == batch;
      result := Some(files);
    } else {
      result := None;
      TailLeft(batch, entries, headers, bodies, numberOf, offset);
    }
  }

  lemma NothingRead(batch: seq<Byte>, entries: seq<Entry>, numberOf: Text -> Option<nat>)
    ensures Frames([], []) == [] && Files([], []) == map[] && Forced(batch, entries, [], [], numberOf, 0)
  {}

  lemma Whole<T>(s: seq<T>, n: nat)
    requires n == |s|
    ensures s[..n] == s
  {}

  // Bytes left over: no tiling.
  lemma TailLeft(batch: seq<Byte>, entries: seq<Entry>, headers: seq<seq<Byte>>, bodies: seq<seq<Byte>>,
                 numberOf: Text -> Option<nat>, offset: nat)
    requires |headers| == |bodies| && Forced(batch, entries, headers, bodies, numberOf, |entries|)
    requires offset < |batch| && batch[..offset] == Frames(headers, bodies)
    ensures forall hs, bs :: !Tiled(batch, entries, hs, bs, numberOf)
  {
    assert |batch[..offset]| == offset;
    forall hs, bs ensures !Tiled(batch, entries, hs, bs, numberOf) {
      if Tiled(batch, entries, hs, bs, numberOf) {
        Whole(hs, |entries|);
        Whole(bs, |entries|);
      }
    }
  }

  lemma FilesGrow(entries: seq<Entry>, k: nat, bodies: seq<seq<Byte>>, body: seq<Byte>)
    requires k < |entries| && |bodies| == k
    ensures Files(entries[..k + 1], bodies + [body]) ==
            Files(entries[..k], bodies)[entries[k].path := Blob(body, entries[k].mode)]
  {
    assert entries[..k + 1][..k] == entries[..k] && (bodies + [body])[..k] == bodies;
  }

  // ---------------------------------------------------------------------------------------------
  // Round trip

  // An object id as the tree listing spells it: no space, and no unit outside ASCII.
  predicate OidForm(oid: Text) { AsciiText(oid) && SPACE !in oid && 10 !in oid }

  function Printed(t: Text): (bytes: seq<Byte>)
    requires AsciiText(t)
    ensures |bytes| == |t| && forall i :: 0 <= i < |t| ==> bytes[i] == t[i]
  {
    seq(|t|, i requires 0 <= i < |t| => t[i])
  }

  // The header line git prints for a blob.
  function GitHeader(oid: Text, length: nat): (bytes: seq<Byte>)
    requires OidForm(oid)
  {
    DigitsAscii(length);
    Printed(oid + U(" blob ") + Digits(length))
  }

  lemma DigitsAscii(n: nat)
    ensures AsciiText(Digits(n)) && SPACE !in Digits(n) && 10 !in Digits(n)
  {}

  lemma {:induction false} SplitPiece(piece: Text, rest: Text)
    requires SPACE !in piece
    ensures Split(piece + [SPACE] + rest) == [piece] + Split(rest)
  {
    if piece == [] {
      assert piece + [SPACE] + rest == [SPACE] + rest;
      assert ([SPACE] + rest)[1..] == rest;
    } else {
      assert (piece + [SPACE] + rest)[1..] == piece[1..] + [SPACE] + rest;
      SplitPiece(piece[1..], rest);
      assert ([piece[1..]] + Split(rest))[1..] == Split(rest);
      assert [piece[0]] + piece[1..] == piece;
    }
  }

  lemma {:induction false} SplitLast(piece: Text)
    requires SPACE !in piece
    ensures Split(piece) == [piece]
  {
    if piece != [] {
      SplitLast(piece[1..]);
      assert [piece[0]] + piece[1..] == piece;
    }
  }

  // A text is its pieces with single spaces between them.
  function Rejoined(pieces: seq<Text>): Text
    requires pieces != []
  {
    if |pieces| == 1 then pieces[0] else pieces[0] + [SPACE] + Rejoined(pieces[1..])
  }

  lemma {:induction false} SplitJoins(t: Text)
    ensures Rejoined(Split(t)) == t && forall i :: 0 <= i < |Split(t)| ==> SPACE !in Split(t)[i]
  {
    if t != [] {
      SplitJoins(t[1..]);
      var rest := Split(t[1..]);
      if t[0] == SPACE {
        assert Split(t)[1..] == rest && t == [] + [SPACE] + t[1..];
      } else {
        assert Split(t)[1..] == rest[1..];
        assert t == [t[0]] + t[1..];
        if |rest| > 1 {
          assert [t[0]] + (rest[0] + [SPACE] + Rejoined(rest[1..])) == ([t[0]] + rest[0]) + [SPACE] + Rejoined(rest[1..]);
        }
      }
    }
  }

  lemma {:induction false} JoinSplits(pieces: seq<Text>)
    requires pieces != [] && forall i :: 0 <= i < |pieces| ==> SPACE !in pieces[i]
    ensures Split(Rejoined(pieces)) == pieces
  {
    if |pieces| == 1 {
      SplitLast(pieces[0]);
    } else {
      JoinSplits(pieces[1..]);
      SplitPiece(pieces[0], Rejoined(pieces[1..]));
    }
  }

  /** A header announces n for an object exactly when it reads as the object id, the word blob and a numeral of n, and whatever
      follows after a further space. */
  lemma HeaderIff(header: seq<Byte>, oid: Text, numberOf: Text -> Option<nat>, n: nat)
    ensures HeaderLength(header, oid, numberOf) == Some(n) <==>
            exists pieces: seq<Text> ::
              && |pieces| >= 3 && Rejoined(pieces) == Ascii(header) && (forall i :: 0 <= i < |pieces| ==> SPACE !in pieces[i])
              && pieces[0] == oid && pieces[1] == U("blob") && numberOf(pieces[2]) == Some(n)
  {
    SplitJoins(Ascii(header));
    if pieces: seq<Text> :|
      && |pieces| >= 3 && Rejoined(pieces) == Ascii(header) && (forall i :: 0 <= i < |pieces| ==> SPACE !in pieces[i])
      && pieces[0] == oid && pieces[1] == U("blob") && numberOf(pieces[2]) == Some(n)
    {
      JoinSplits(pieces);
    }
    if HeaderLength(header, oid, numberOf) == Some(n) {
      var pieces := Split(Ascii(header));
      assert |pieces| >= 3 && pieces[0] == oid && pieces[1] == U("blob");
    }
  }

  lemma GitHeaderReads(oid: Text, length: nat, numberOf: Text -> Option<nat>)
    requires OidForm(oid) && numberOf(Digits(length)) == Some(length)
    ensures NEWLINE !in GitHeader(oid, length)
    ensures HeaderLength(GitHeader(oid, length), oid, numberOf) == Some(length)
  {
    DigitsAscii(length);
    var header, digits := GitHeader(oid, length), Digits(length);
    var line := oid + U(" blob ") + digits;
    assert Ascii(header) == line;
    assert line == oid + [SPACE] + (BLOB + [SPACE] + digits);
    SplitPiece(oid, BLOB + [SPACE] + digits);
    SplitPiece(BLOB, digits);
    SplitLast(digits);
    assert NEWLINE !in U(" blob ");
    forall i | 0 <= i < |header| ensures header[i] != NEWLINE {
      assert header[i] == line[i];
    }
  }

  function GitBatch(entries: seq<Entry>, bodies: seq<seq<Byte>>): seq<seq<Byte>>
    requires |entries| == |bodies| && forall i :: 0 <= i < |entries| ==> OidForm(entries[i].oid)
  {
    seq(|entries|, i requires 0 <= i < |entries| => GitHeader(entries[i].oid, |bodies[i]|))
  }

  /** A batch printed by git for the entries is read back body by body, whatever bytes the bodies hold. */
  method ReadPrinted(entries: seq<Entry>, bodies: seq<seq<Byte>>, numberOf: Text -> Option<nat>)
    returns (result: Option<map<Text, Blob>>)
    requires |entries| == |bodies| && forall i :: 0 <= i < |entries| ==> OidForm(entries[i].oid)
    requires forall i :: 0 <= i < |bodies| ==> numberOf(Digits(|bodies[i]|)) == Some(|bodies[i]|)
    ensures result == Some(Files(entries, bodies))
  {
    var printed := GitBatch(entries, bodies);
    var batch := Frames(printed, bodies);
    forall i | 0 <= i < |entries| ensures HeaderFor(printed[i], bodies[i], entries[i], numberOf) {
      GitHeaderReads(entries[i].oid, |bodies[i]|, numberOf);
    }
    assert Tiled(batch, entries, printed, bodies, numberOf);
    ghost var headers, found;
    result, headers, found := BlobsAt(batch, entries, numberOf);
    TilingUnique(batch, entries, printed, bodies, headers, found, numberOf, |entries|);
    assert bodies[..|bodies|] == bodies && found[..|found|] == found;
  }

  lemma TilingLengths(batch: seq<Byte>, entries: seq<Entry>, hs: seq<seq<Byte>>, bs: seq<seq<Byte>>,
                      numberOf: Text -> Option<nat>)
    requires Tiled(batch, entries, hs, bs, numberOf)
    ensures |hs| == |bs| == |entries|
  {}

  /** A batch can be cut into frames for its entries in one way only. */
  lemma {:induction false} TilingUnique(
    batch: seq<Byte>, entries: seq<Entry>, hs: seq<seq<Byte>>, bs: seq<seq<Byte>>,
    headers: seq<seq<Byte>>, bodies: seq<seq<Byte>>, numberOf: Text -> Option<nat>, k: nat)
    requires Tiled(batch, entries, hs, bs, numberOf) && Tiled(batch, entries, headers, bodies, numberOf) && k <= |entries|
    ensures |hs| == |bs| == |headers| == |bodies| == |entries|
    ensures hs[..k] == headers[..k] && bs[..k] == bodies[..k]
  {
    hide FrameHere, HeaderFor, Tiled;
    TilingLengths(batch, entries, hs, bs, numberOf);
    TilingLengths(batch, entries, headers, bodies, numberOf);
    if k > 0 {
      TilingUnique(batch, entries, hs, bs, headers, bodies, numberOf, k - 1);
      var offset := |Frames(hs[..k - 1], bs[..k - 1])|;
      TiledFrame(batch, entries, hs, bs, numberOf, k - 1, offset);
      TiledFrame(batch, entries, headers, bodies, numberOf, k - 1, offset);
      FrameUnique(batch, offset, hs[k - 1], bs[k - 1], headers[k - 1], bodies[k - 1], entries[k - 1], numberOf);
      assert hs[..k] == hs[..k - 1] + [hs[k - 1]] && headers[..k] == headers[..k - 1] + [headers[k - 1]];
      assert bs[..k] == bs[..k - 1] + [bs[k - 1]] && bodies[..k] == bodies[..k - 1] + [bodies[k - 1]];
    }
  }
}
