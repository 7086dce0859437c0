/** The six public operations of `AppleArchiver`. Each runs inside the scoped
    guard and checks the key length first. An encrypting operation then makes
    its encryption context and opens its stream stages in a fixed order; a
    decrypting one opens its source file, reads the context from it, sets the
    key and opens its remaining stages. Each then does its work with them. The archive
    framework is not modelled; each call into it is an oracle field of a
    `Framework` value saying whether the call succeeds, and what it returns. */
module AppleArchiver {
  import opened Wrappers
  import opened Closables
  import opened ArchiveFormat

  /** The only key length the operations accept, in bits. */
  const KeyBitCount := 256

  type byte = x: int | 0 <= x < 256

  /** The stream stages an operation can open, named by their role. */
  datatype Stage =
    | SourceFile       // a file opened read-only
    | DestinationFile  // a file created or truncated, write-only
    | Encryption       // encrypting byte stream over the destination
    | Decryption       // decrypting byte stream over the source
    | Encode           // archive encoder over the encryption stream
    | Decode           // archive decoder over the decryption stream
    | Extract          // archive extractor into a directory

  type StageGuard = Guard<Stage, ArchiveError>
  type Body<R> = Step<Stage, R, ArchiveError>
  type Run<R> = Scope<Stage, R, ArchiveError>

  /** The behaviour of the archive framework during one operation. */
  datatype Framework = Framework(
    opens: Stage -> bool,                        // whether the stage's factory yields a stream
    closeThrows: Stage -> bool,                  // whether the stage's close() throws
    setKey: Outcome<ArchiveError>,               // setting the key on a context
    parsesContext: bool,                         // whether a context can be read from the source
    archive: Outcome<ArchiveError>,              // archiving a directory's contents
    extract: Result<int, ArchiveError>,          // entry transfer: the entry count
    transfer: Result<int, ArchiveError>,         // byte transfer: the byte count
    writeHeader: Outcome<ArchiveError>,
    writeBlob: Outcome<ArchiveError>,
    readHeader: Result<Option<Header>, ArchiveError>,  // None: no header left to read
    readBlob: Result<seq<byte>, ArchiveError>          // the bytes delivered into the buffer
  ) {
    /** What the factory of `stage` yields. */
    function Open(stage: Stage): Option<Stage> {
      if opens(stage) then Some(stage) else None
    }

    /** The factories of `stages`, in order. */
    function Factories(stages: seq<Stage>): seq<Option<Stage>> {
      seq(|stages|, i requires 0 <= i < |stages| => Open(stages[i]))
    }

    /** The stages of `stages` opened before the first one that cannot be. */
    function Opened(stages: seq<Stage>): (r: seq<Stage>)
      ensures |r| <= |stages| && r == stages[..|r|]
      ensures forall i :: 0 <= i < |r| ==> opens(r[i])
      ensures |r| < |stages| ==> !opens(stages[|r|])
      ensures (forall stage :: stage in stages ==> opens(stage)) ==> r == stages
    {
      var r := YieldedPrefix(Factories(stages));
      assert forall i :: 0 <= i < |r| ==> Open(stages[i]) == Some(r[i]);
      r
    }
  }

  /** What `encryptData` hands to the encode stream: a header and the payload
      written as the DAT blob. */
  datatype Envelope = Envelope(header: Header, payload: seq<byte>)

  /** The acquisition order of each operation's stages. */
  const EncryptDirectoryStages: seq<Stage> := [DestinationFile, Encryption, Encode]
  const DecryptDirectoryStages: seq<Stage> := [SourceFile, Decryption, Decode, Extract]
  const EncryptFileStages: seq<Stage> := [SourceFile, DestinationFile, Encryption]
  const DecryptFileStages: seq<Stage> := [SourceFile, Decryption, DestinationFile]
  const EncryptDataStages: seq<Stage> := [DestinationFile, Encryption, Encode]
  const DecryptDataStages: seq<Stage> := [SourceFile, Decryption, Decode]

  /** The factory of every stage of `stages` yields its stream. */
  ghost predicate OpensStages(fw: Framework, stages: seq<Stage>) {
    forall stage :: stage in stages ==> fw.opens(stage)
  }

  /** A decrypting operation finds a context in its source and the framework
      accepts the key for it. */
  ghost predicate AcceptsKey(fw: Framework) {
    fw.setKey.Pass? && fw.parsesContext
  }

  /** The scope released exactly the stages that could be opened, newest
      first, and a stage that could not be opened surfaced `ioError`. */
  ghost predicate ReleasesOpenedStages<R>(r: Run<R>, fw: Framework, stages: seq<Stage>) {
    && ReleasedItems(r.trace) == Reverse(fw.Opened(stages))
    && (|fw.Opened(stages)| < |stages| ==> r.result == Failure(IoError))
  }

  /** The stages opened from a list are its first stage, if it opens,
      followed by the stages opened from the rest. */
  lemma OpenedFirst(fw: Framework, stages: seq<Stage>)
    requires |stages| > 0
    ensures fw.opens(stages[0]) ==> fw.Opened(stages) == [stages[0]] + fw.Opened(stages[1..])
    ensures !fw.opens(stages[0]) ==> fw.Opened(stages) == []
  {
    assert fw.Factories(stages)[1..] == fw.Factories(stages[1..]);
  }

  /** A trace releases the first |trace| stages of `stages`, newest first. */
  ghost predicate ReleasesHeldPrefix(trace: seq<Release<Stage>>, stages: seq<Stage>) {
    |trace| <= |stages| && ReleasedItems(trace) == Reverse(stages[..|trace|])
  }

  /** A scope body leaves on the guard what it found there, followed by the
      first few stages of `stages`, all of them when it succeeds. */
  ghost predicate PushesPrefixOf<R>(g: StageGuard, s: Body<R>, stages: seq<Stage>) {
    && |g.items| <= |s.guard.items| <= |g.items| + |stages|
    && s.guard.items == g.items + stages[..|s.guard.items| - |g.items|]
    && (s.outcome.Success? ==> |s.guard.items| == |g.items| + |stages|)
  }

  /** With the key accepted, a scope body holds, above what it found on the
      guard, exactly the stages of `stages` opened before the first one that
      cannot be, and that stage surfaces the guard's error. */
  ghost predicate HoldsOpenedStages<R>(g: StageGuard, s: Body<R>, fw: Framework, stages: seq<Stage>) {
    && s.guard.items == g.items + fw.Opened(stages)
    && (|fw.Opened(stages)| < |stages| ==> s.outcome == Failure(g.error))
  }

  /** A failed step inside the scope: the guard is kept for cleanup. */
  function Abort<R>(g: StageGuard, e: ArchiveError): Body<R> {
    Step(g, Failure(e))
  }

  /** A zeroed buffer of `size` bytes into which `bytes` were read. */
  function Fill(size: nat, bytes: seq<byte>): (buffer: seq<byte>)
    ensures |buffer| == size
    ensures size <= |bytes| ==> buffer == bytes[..size]
    ensures |bytes| <= size ==> buffer[..|bytes|] == bytes && forall i :: |bytes| <= i < size ==> buffer[i] == 0
  {
    seq(size, i requires 0 <= i < size => if i < |bytes| then bytes[i] else 0)
  }

  // ---------------------------------------------------------------- directory

  function EncryptDirectoryBody(keyBits: int, fw: Framework, g: StageGuard): (s: Body<()>)
    ensures PushesPrefixOf(g, s, EncryptDirectoryStages)
    ensures keyBits == KeyBitCount && fw.setKey.Pass? ==> HoldsOpenedStages(g, s, fw, EncryptDirectoryStages)
    ensures keyBits == KeyBitCount && fw.setKey.Fail? ==> s == Step(g, Failure(fw.setKey.error))
    ensures keyBits == KeyBitCount && fw.setKey.Pass? && OpensStages(fw, EncryptDirectoryStages) ==>
              s.outcome == (if fw.archive.Fail? then Failure(fw.archive.error) else Success(()))
  {
    if keyBits != KeyBitCount then Abort(g, InvalidValue)
    else if fw.setKey.Fail? then Abort(g, fw.setKey.error)
    else
      var held := AcquireAll(g, fw.Factories([DestinationFile, Encryption, Encode]));
      if held.outcome.Failure? then Abort(held.guard, held.outcome.error)
      else if fw.archive.Fail? then Abort(held.guard, fw.archive.error)
      else Step(held.guard, Success(()))
  }

  function EncryptDirectory(keyBits: int, fw: Framework): (r: Run<()>)
    ensures keyBits != KeyBitCount ==> r == Scope([], Failure(InvalidValue))
    ensures ReleasesHeldPrefix(r.trace, EncryptDirectoryStages)
    ensures keyBits == KeyBitCount && fw.setKey.Pass? ==> ReleasesOpenedStages(r, fw, EncryptDirectoryStages)
    ensures keyBits == KeyBitCount && fw.setKey.Fail? ==> r == Scope([], Failure(fw.setKey.error))
    ensures keyBits == KeyBitCount && fw.setKey.Pass? && OpensStages(fw, EncryptDirectoryStages) ==>
              r.result == (if fw.archive.Fail? then Failure(fw.archive.error) else Success(()))
    ensures r.result.Success? ==> |r.trace| == |EncryptDirectoryStages|
    ensures ReportsCloseFailures(r.trace, fw.closeThrows)
  {
    WithClosables(IoError, g => EncryptDirectoryBody(keyBits, fw, g), fw.closeThrows)
  }

  function DecryptDirectoryBody(keyBits: int, fw: Framework, g: StageGuard): (s: Body<int>)
    ensures PushesPrefixOf(g, s, DecryptDirectoryStages)
    ensures keyBits == KeyBitCount && !fw.opens(SourceFile) ==> s == Step(g, Failure(g.error))
    ensures keyBits == KeyBitCount && (fw.opens(SourceFile) ==> AcceptsKey(fw)) ==>
              HoldsOpenedStages(g, s, fw, DecryptDirectoryStages)
    ensures keyBits == KeyBitCount && fw.opens(SourceFile) && fw.parsesContext && fw.setKey.Fail? ==>
              s.outcome == Failure(fw.setKey.error) && s.guard.items == g.items + [SourceFile]
    ensures keyBits == KeyBitCount && AcceptsKey(fw) && OpensStages(fw, DecryptDirectoryStages) ==> s.outcome == fw.extract
  {
    if keyBits != KeyBitCount then Abort(g, InvalidValue)
    else
      OpenedFirst(fw, DecryptDirectoryStages);
      var source := New(g, fw.Open(SourceFile));
      if source.outcome.Failure? then Abort(source.guard, source.outcome.error)
      else if !fw.parsesContext then Abort(source.guard, IoError)
      else if fw.setKey.Fail? then Abort(source.guard, fw.setKey.error)
      else
        var held := AcquireAll(source.guard, fw.Factories([Decryption, Decode, Extract]));
        if held.outcome.Failure? then Abort(held.guard, held.outcome.error)
        else Step(held.guard, fw.extract)
  }

  function DecryptDirectory(keyBits: int, fw: Framework): (r: Run<int>)
    ensures keyBits != KeyBitCount ==> r == Scope([], Failure(InvalidValue))
    ensures ReleasesHeldPrefix(r.trace, DecryptDirectoryStages)
    ensures keyBits == KeyBitCount && !fw.opens(SourceFile) ==> r == Scope([], Failure(IoError))
    ensures keyBits == KeyBitCount && (fw.opens(SourceFile) ==> AcceptsKey(fw)) ==>
              ReleasesOpenedStages(r, fw, DecryptDirectoryStages)
    ensures keyBits == KeyBitCount && fw.opens(SourceFile) && fw.parsesContext && fw.setKey.Fail? ==>
              r.result == Failure(fw.setKey.error) && ReleasedItems(r.trace) == [SourceFile]
    ensures keyBits == KeyBitCount && AcceptsKey(fw) && OpensStages(fw, DecryptDirectoryStages) ==>
              r.result == fw.extract
    ensures r.result.Success? ==> |r.trace| == |DecryptDirectoryStages| && r.result == fw.extract
    ensures ReportsCloseFailures(r.trace, fw.closeThrows)
  {
    WithClosables(IoError, g => DecryptDirectoryBody(keyBits, fw, g), fw.closeThrows)
  }

  // --------------------------------------------------------------------- file

  function EncryptFileBody(keyBits: int, fw: Framework, g: StageGuard): (s: Body<int>)
    ensures PushesPrefixOf(g, s, EncryptFileStages)
    ensures keyBits == KeyBitCount && fw.setKey.Pass? ==> HoldsOpenedStages(g, s, fw, EncryptFileStages)
    ensures keyBits == KeyBitCount && fw.setKey.Fail? ==> s == Step(g, Failure(fw.setKey.error))
    ensures keyBits == KeyBitCount && fw.setKey.Pass? && OpensStages(fw, EncryptFileStages) ==>
              s.outcome == fw.transfer
  {
    if keyBits != KeyBitCount then Abort(g, InvalidValue)
    else if fw.setKey.Fail? then Abort(g, fw.setKey.error)
    else
      var held := AcquireAll(g, fw.Factories([SourceFile, DestinationFile, Encryption]));
      if held.outcome.Failure? then Abort(held.guard, held.outcome.error)
      else Step(held.guard, fw.transfer)
  }

  function EncryptFile(keyBits: int, fw: Framework): (r: Run<int>)
    ensures keyBits != KeyBitCount ==> r == Scope([], Failure(InvalidValue))
    ensures ReleasesHeldPrefix(r.trace, EncryptFileStages)
    ensures keyBits == KeyBitCount && fw.setKey.Pass? ==> ReleasesOpenedStages(r, fw, EncryptFileStages)
    ensures keyBits == KeyBitCount && fw.setKey.Fail? ==> r == Scope([], Failure(fw.setKey.error))
    ensures keyBits == KeyBitCount && fw.setKey.Pass? && OpensStages(fw, EncryptFileStages) ==>
              r.result == fw.transfer
    ensures r.result.Success? ==> |r.trace| == |EncryptFileStages| && r.result == fw.transfer
    ensures ReportsCloseFailures(r.trace, fw.closeThrows)
  {
    WithClosables(IoError, g => EncryptFileBody(keyBits, fw, g), fw.closeThrows)
  }

  function DecryptFileBody(keyBits: int, fw: Framework, g: StageGuard): (s: Body<int>)
    ensures PushesPrefixOf(g, s, DecryptFileStages)
    ensures keyBits == KeyBitCount && !fw.opens(SourceFile) ==> s == Step(g, Failure(g.error))
    ensures keyBits == KeyBitCount && (fw.opens(SourceFile) ==> AcceptsKey(fw)) ==>
              HoldsOpenedStages(g, s, fw, DecryptFileStages)
    ensures keyBits == KeyBitCount && fw.opens(SourceFile) && fw.parsesContext && fw.setKey.Fail? ==>
              s.outcome == Failure(fw.setKey.error) && s.guard.items == g.items + [SourceFile]
    ensures keyBits == KeyBitCount && AcceptsKey(fw) && OpensStages(fw, DecryptFileStages) ==> s.outcome == fw.transfer
  {
    if keyBits != KeyBitCount then Abort(g, InvalidValue)
    else
      OpenedFirst(fw, DecryptFileStages);
      var source := New(g, fw.Open(SourceFile));
      if source.outcome.Failure? then Abort(source.guard, source.outcome.error)
      else if !fw.parsesContext then Abort(source.guard, IoError)
      else if fw.setKey.Fail? then Abort(source.guard, fw.setKey.error)
      else
        var held := AcquireAll(source.guard, fw.Factories([Decryption, DestinationFile]));
        if held.outcome.Failure? then Abort(held.guard, held.outcome.error)
        else Step(held.guard, fw.transfer)
  }

  function DecryptFile(keyBits: int, fw: Framework): (r: Run<int>)
    ensures keyBits != KeyBitCount ==> r == Scope([], Failure(InvalidValue))
    ensures ReleasesHeldPrefix(r.trace, DecryptFileStages)
    ensures keyBits == KeyBitCount && !fw.opens(SourceFile) ==> r == Scope([], Failure(IoError))
    ensures keyBits == KeyBitCount && (fw.opens(SourceFile) ==> AcceptsKey(fw)) ==>
              ReleasesOpenedStages(r, fw, DecryptFileStages)
    ensures keyBits == KeyBitCount && fw.opens(SourceFile) && fw.parsesContext && fw.setKey.Fail? ==>
              r.result == Failure(fw.setKey.error) && ReleasedItems(r.trace) == [SourceFile]
    ensures keyBits == KeyBitCount && AcceptsKey(fw) && OpensStages(fw, DecryptFileStages) ==>
              r.result == fw.transfer
    ensures r.result.Success? ==> |r.trace| == |DecryptFileStages| && r.result == fw.transfer
    ensures ReportsCloseFailures(r.trace, fw.closeThrows)
  {
    WithClosables(IoError, g => DecryptFileBody(keyBits, fw, g), fw.closeThrows)
  }

  // --------------------------------------------------------------------- data

  function EncryptDataBody(data: seq<byte>, keyBits: int, fw: Framework, g: StageGuard): (s: Body<Envelope>)
    ensures PushesPrefixOf(g, s, EncryptDataStages)
    ensures keyBits == KeyBitCount && fw.setKey.Pass? ==> HoldsOpenedStages(g, s, fw, EncryptDataStages)
    ensures keyBits == KeyBitCount && fw.setKey.Fail? ==> s == Step(g, Failure(fw.setKey.error))
    ensures keyBits == KeyBitCount && fw.setKey.Pass? && OpensStages(fw, EncryptDataStages) ==>
              s.outcome == (if fw.writeHeader.Fail? then Failure(fw.writeHeader.error)
                           else if fw.writeBlob.Fail? then Failure(fw.writeBlob.error)
                           else Success(Envelope(EnvelopeHeader(|data|), data)))
  {
    if keyBits != KeyBitCount then Abort(g, InvalidValue)
    else if fw.setKey.Fail? then Abort(g, fw.setKey.error)
    else
      var held := AcquireAll(g, fw.Factories([DestinationFile, Encryption, Encode]));
      if held.outcome.Failure? then Abort(held.guard, held.outcome.error)
      else
        var header := EnvelopeHeader(|data|);
        if fw.writeHeader.Fail? then Abort(held.guard, fw.writeHeader.error)
        else if fw.writeBlob.Fail? then Abort(held.guard, fw.writeBlob.error)
        else Step(held.guard, Success(Envelope(header, data)))
  }

  function EncryptData(data: seq<byte>, keyBits: int, fw: Framework): (r: Run<Envelope>)
    ensures keyBits != KeyBitCount ==> r == Scope([], Failure(InvalidValue))
    ensures ReleasesHeldPrefix(r.trace, EncryptDataStages)
    ensures keyBits == KeyBitCount && fw.setKey.Pass? ==> ReleasesOpenedStages(r, fw, EncryptDataStages)
    ensures keyBits == KeyBitCount && fw.setKey.Fail? ==> r == Scope([], Failure(fw.setKey.error))
    ensures keyBits == KeyBitCount && fw.setKey.Pass? && OpensStages(fw, EncryptDataStages) ==>
              r.result == (if fw.writeHeader.Fail? then Failure(fw.writeHeader.error)
                           else if fw.writeBlob.Fail? then Failure(fw.writeBlob.error)
                           else Success(Envelope(EnvelopeHeader(|data|), data)))
    ensures r.result.Success? ==>
              && |r.trace| == |EncryptDataStages|
              && r.result.value.header == EnvelopeHeader(|data|)
              && r.result.value.payload == data
    ensures ReportsCloseFailures(r.trace, fw.closeThrows)
  {
    WithClosables(IoError, g => EncryptDataBody(data, keyBits, fw, g), fw.closeThrows)
  }

  function DecryptDataBody(keyBits: int, fw: Framework, g: StageGuard): (s: Body<seq<byte>>)
    ensures PushesPrefixOf(g, s, DecryptDataStages)
    ensures keyBits == KeyBitCount && !fw.opens(SourceFile) ==> s == Step(g, Failure(g.error))
    ensures keyBits == KeyBitCount && (fw.opens(SourceFile) ==> AcceptsKey(fw)) ==>
              HoldsOpenedStages(g, s, fw, DecryptDataStages)
    ensures keyBits == KeyBitCount && fw.opens(SourceFile) && fw.parsesContext && fw.setKey.Fail? ==>
              s.outcome == Failure(fw.setKey.error) && s.guard.items == g.items + [SourceFile]
  {
    if keyBits != KeyBitCount then Abort(g, InvalidValue)
    else
      OpenedFirst(fw, DecryptDataStages);
      var source := New(g, fw.Open(SourceFile));
      if source.outcome.Failure? then Abort(source.guard, source.outcome.error)
      else if !fw.parsesContext then Abort(source.guard, IoError)
      else if fw.setKey.Fail? then Abort(source.guard, fw.setKey.error)
      else
        var held := AcquireAll(source.guard, fw.Factories([Decryption, Decode]));
        if held.outcome.Failure? then Abort(held.guard, held.outcome.error)
        else if fw.readHeader.Failure? then Abort(held.guard, fw.readHeader.error)
        else match ValidateEnvelope(fw.readHeader.value)
          case Failure(e) => Abort(held.guard, e)
          case Success(size) =>
            if fw.readBlob.Failure? then Abort(held.guard, fw.readBlob.error)
            else Step(held.guard, Success(Fill(size, fw.readBlob.value)))
  }

  function DecryptData(keyBits: int, fw: Framework): (r: Run<seq<byte>>)
    ensures keyBits != KeyBitCount ==> r == Scope([], Failure(InvalidValue))
    ensures ReleasesHeldPrefix(r.trace, DecryptDataStages)
    ensures keyBits == KeyBitCount && !fw.opens(SourceFile) ==> r == Scope([], Failure(IoError))
    ensures keyBits == KeyBitCount && (fw.opens(SourceFile) ==> AcceptsKey(fw)) ==>
              ReleasesOpenedStages(r, fw, DecryptDataStages)
    ensures keyBits == KeyBitCount && fw.opens(SourceFile) && fw.parsesContext && fw.setKey.Fail? ==>
              r.result == Failure(fw.setKey.error) && ReleasedItems(r.trace) == [SourceFile]
    ensures keyBits == KeyBitCount && AcceptsKey(fw) && OpensStages(fw, DecryptDataStages) ==>
              r.result == (if fw.readHeader.Failure? then Failure(fw.readHeader.error)
                           else match ValidateEnvelope(fw.readHeader.value)
                             case Failure(e) => Failure(e)
                             case Success(size) =>
                               if fw.readBlob.Failure? then Failure(fw.readBlob.error)
                               else Success(Fill(size, fw.readBlob.value)))
    ensures r.result.Success? ==>
              && |r.trace| == |DecryptDataStages|
              && fw.readHeader.Success?
              && ValidateEnvelope(fw.readHeader.value) == Success(|r.result.value|)
              && fw.readBlob.Success?
              && r.result.value == Fill(|r.result.value|, fw.readBlob.value)
    ensures ReportsCloseFailures(r.trace, fw.closeThrows)
  {
    WithClosables(IoError, g => DecryptDataBody(keyBits, fw, g), fw.closeThrows)
  }

  // ------------------------------------------------------------------ lemmas

  /** A source whose encryption context cannot be read makes each decrypting
      operation fail with `ioError` while holding only the source file. */
  lemma UnreadableContextReleasesSourceOnly(keyBits: int, fw: Framework)
    requires keyBits == KeyBitCount && fw.opens(SourceFile) && !fw.parsesContext
    ensures DecryptDirectory(keyBits, fw).result == Failure(IoError)
    ensures ReleasedItems(DecryptDirectory(keyBits, fw).trace) == [SourceFile]
    ensures DecryptFile(keyBits, fw).result == Failure(IoError)
    ensures ReleasedItems(DecryptFile(keyBits, fw).trace) == [SourceFile]
    ensures DecryptData(keyBits, fw).result == Failure(IoError)
    ensures ReleasedItems(DecryptData(keyBits, fw).trace) == [SourceFile]
  {
  }

  /** With every stage open and every write accepted, `encryptData` writes the
      envelope of any payload, the empty one included, and releases the
      encoder, then the encryption stream, then the file. */
  lemma EncryptDataWritesEveryPayload(data: seq<byte>, fw: Framework)
    requires OpensStages(fw, EncryptDataStages) && fw.setKey.Pass?
    requires fw.writeHeader.Pass? && fw.writeBlob.Pass?
    ensures EncryptData(data, KeyBitCount, fw).result == Success(Envelope(EnvelopeHeader(|data|), data))
    ensures ReleasedItems(EncryptData(data, KeyBitCount, fw).trace) == [Encode, Encryption, DestinationFile]
  {
  }

  /** A header that was read but fails the envelope check makes `decryptData`
      fail with `invalidValue` after all three stages were opened. */
  lemma DecryptDataRejectsInvalidEnvelope(fw: Framework)
    requires OpensStages(fw, DecryptDataStages) && AcceptsKey(fw)
    requires fw.readHeader.Success? && ValidateEnvelope(fw.readHeader.value).Failure?
    ensures DecryptData(KeyBitCount, fw).result == Failure(InvalidValue)
    ensures ReleasedItems(DecryptData(KeyBitCount, fw).trace) == [Decode, Decryption, SourceFile]
  {
  }

  /** Reading back the envelope `encryptData` writes, when the decoder
      delivers its header and payload: a non-empty payload comes back
      unchanged, an empty one is rejected with `invalidValue`. */
  lemma DataEnvelopeRoundTrip(payload: seq<byte>, fw: Framework)
    requires OpensStages(fw, DecryptDataStages) && AcceptsKey(fw)
    requires fw.readHeader == Success(Some(EnvelopeHeader(|payload|)))
    requires fw.readBlob == Success(payload)
    ensures |payload| > 0 ==> DecryptData(KeyBitCount, fw).result == Success(payload)
    ensures |payload| == 0 ==> DecryptData(KeyBitCount, fw).result == Failure(InvalidValue)
  {
    EnvelopeRoundTrip(|payload|);
    assert Fill(|payload|, payload) == payload;
  }

  /** `encryptData` followed by `decryptData`: whatever a successful
      `encryptData` call writes, a decoder that delivers that header and that
      payload makes `decryptData` return a non-empty payload unchanged and
      reject an empty one with `invalidValue`. */
  lemma EncryptThenDecryptData(payload: seq<byte>, writer: Framework, written: Envelope, fw: Framework)
    requires EncryptData(payload, KeyBitCount, writer).result == Success(written)
    requires OpensStages(fw, DecryptDataStages) && AcceptsKey(fw)
    requires fw.readHeader == Success(Some(written.header))
    requires fw.readBlob == Success(written.payload)
    ensures |payload| > 0 ==> DecryptData(KeyBitCount, fw).result == Success(payload)
    ensures |payload| == 0 ==> DecryptData(KeyBitCount, fw).result == Failure(InvalidValue)
  {
    assert written == Envelope(EnvelopeHeader(|payload|), payload);
    DataEnvelopeRoundTrip(payload, fw);
  }
}
