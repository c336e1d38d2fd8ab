/** Bounded staging of a request's output images in the host's own store. */
module OutputStaging {
  import opened CapacityTypes

  const CHUNK_BYTES := 64 * 1024
  const MAX_RECORDS := 100

  datatype Limits = Limits(imageBytes: nat, requestBytes: nat, aggregateBytes: nat, images: nat)
  {
    predicate Valid() { 0 < imageBytes <= requestBytes <= aggregateBytes && 0 < images }
  }

  datatype Descriptor = Descriptor(identity: string, supported: bool)

  /** The remote receipt of one request: which images it says it made. */
  datatype Remote = Remote(requestId: string, identity: string, executionSucceeded: bool, images: seq<Descriptor>)

  datatype Code =
    | RemoteCorrelationMismatch | StorageOwnerMismatch | LocalReceiptConflict | LocalContentConflict | StorageCapacity
    | Interrupted
    | ExecutionSuccessUnproven | DownloadContractInvalid | UnsupportedImageFormat | EmptyDownload | DownloadSizeLimit
    | ShortDownload | DownloadInterrupted | ImageRejected | UnsafeStorage | StorageUnavailable | StorageIntegrityLost
    | HostCustodyInvalidated

  datatype Outcome<+T> = Ok(value: T) | Failed(code: Code)

  /** What comes of one call: it is fine, or it raises what the store catches or finds something wrong, or it raises
      what the store does not catch. */
  datatype Step = Fine | Fails | Kills

  /** One step after another. */
  function Then(first: Step, second: Step): Step { if first.Fine? then second else first }

  /** A step that is taken whatever came of the body; its own exception replaces the body's. */
  function Finally(body: Step, last: Step): Step { if last.Fine? then body else last }

  /** What one read of a download stream gives, and writing it to the file; no bytes is the end of the stream. `Killed`
      is an exception that the store does not catch. */
  datatype Chunk = Bytes(count: nat) | NotBytes | Raises | Killed

  /** What the provider answers: a stream that breaks its contract, an exception of either kind, or a stream to read.
      Only a stream is closed. */
  datatype Stream = Unusable(closes: Step) | Raised | Struck | Opened(length: int, read: nat -> Chunk, closes: Step)

  /** What the disk, the provider and the decoder do for one image, in order; `released` closes the file whatever came
      before, and `removable` is the removal of an incomplete file. */
  datatype Attempt = Attempt(
    directoryKept: Step, creates: Step, fileChecked: Step, stream: Stream, fileKept: Step, decodes: Step,
    contentAgrees: Step, released: Step, removable: Step)

  /** What is outside the store for one request: the binding check, the owner, making the directory, one attempt an image,
      and the check of all files at the end. */
  datatype Surroundings = Surroundings(
    bindingHolds: bool, envelope: nat, providerCallable: bool, directoryMade: Step, attempt: nat -> Attempt,
    filesKept: Step, intact: bool)

  datatype LocalImage = LocalImage(descriptorIdentity: string, byteCount: nat, storageId: nat)

  datatype State = Verified | Quarantined | Incomplete

  datatype Receipt = Receipt(
    requestId: string, remoteIdentity: string, state: State, failure: Option<Code>, images: seq<LocalImage>,
    downloaded: nat, retained: seq<nat>)

  /** What a call that is not fine leaves to the caller. */
  function Raise(step: Step, code: Code): Outcome<()> { if step.Kills? then Failed(Interrupted) else Failed(code) }

  /** A file this attempt made, with the bytes counted for it so far. */
  datatype Owned = Owned(storageId: nat, bytes: nat)

  // ----- when an image can be staged -----

  /** Bytes of the first `n` reads. */
  function Received(read: nat -> Chunk, n: nat): nat {
    if n == 0 then 0 else Received(read, n - 1) + (if read(n - 1).Bytes? then read(n - 1).count else 0)
  }

  /** The stream ends at read `n` after exactly `length` bytes in chunks of at most the asked size. */
  predicate Delivers(read: nat -> Chunk, length: nat, n: nat) {
    && (forall i :: 0 <= i < n ==> read(i).Bytes? && 0 < read(i).count <= CHUNK_BYTES)
    && read(n) == Bytes(0) && Received(read, n) == length
  }

  lemma {:induction false} ReceivedGrows(read: nat -> Chunk, n: nat, m: nat)
    requires n <= m
    ensures Received(read, n) <= Received(read, m)
  {
    if n < m {
      ReceivedGrows(read, n, m - 1);
    }
  }

  /** What stops the read loop at read `i` stops every delivery. */
  lemma NoDelivery(read: nat -> Chunk, length: nat, i: nat)
    requires forall j :: 0 <= j < i ==> read(j).Bytes? && 0 < read(j).count
    requires
      || !read(i).Bytes? || read(i).count > CHUNK_BYTES || Received(read, i) + read(i).count > length
      || (read(i).count == 0 && Received(read, i) != length)
    ensures forall n: nat :: !Delivers(read, length, n)
  {
    hide Received;
    forall n: nat
      ensures !Delivers(read, length, n)
    {
      ReceivedNext(read, i);
      if i < n {
        ReceivedGrows(read, i + 1, n);
      }
    }
  }

  /** An uncaught exception strikes at read `n`, before the stream has ended or gone wrong. */
  predicate CutOff(read: nat -> Chunk, length: nat, n: nat) {
    && (forall i :: 0 <= i < n ==> read(i).Bytes? && 0 < read(i).count <= CHUNK_BYTES)
    && Received(read, n) <= length && read(n).Killed?
  }

  /** What stops the read loop otherwise at read `i` leaves no exception to strike. */
  lemma NoCutOff(read: nat -> Chunk, length: nat, i: nat)
    requires forall j :: 0 <= j < i ==> read(j).Bytes? && 0 < read(j).count
    requires
      || (!read(i).Bytes? && !read(i).Killed?)
      || (read(i).Bytes? && (read(i).count == 0 || read(i).count > CHUNK_BYTES || Received(read, i) + read(i).count > length))
    ensures forall n: nat :: !CutOff(read, length, n)
  {
    hide Received;
    forall n: nat
      ensures !CutOff(read, length, n)
    {
      ReceivedNext(read, i);
      if i < n {
        ReceivedGrows(read, i + 1, n);
      }
    }
  }

  lemma ReceivedNext(read: nat -> Chunk, n: nat)
    ensures read(n).Bytes? ==> Received(read, n + 1) == Received(read, n) + read(n).count
  {
  }

  /** The declared length is within every limit. */
  predicate LengthFits(limits: Limits, length: int, requestBytes: nat, usedBytes: nat) {
    && 0 < length <= limits.imageBytes && requestBytes + length <= limits.requestBytes
    && usedBytes + length <= limits.aggregateBytes
  }

  /** The read loop. */
  ghost function ReadStep(read: nat -> Chunk, length: nat): Step {
    if exists n: nat :: Delivers(read, length, n) then Fine
    else if exists n: nat :: CutOff(read, length, n) then Kills
    else Fails
  }

  /** From the provider's answer to the last byte. */
  ghost function DownloadStep(limits: Limits, stream: Stream, requestBytes: nat, usedBytes: nat): Step {
    match stream
    case Unusable(_) => Fails
    case Raised => Fails
    case Struck => Kills
    case Opened(length, read, _) =>
      if LengthFits(limits, length, requestBytes, usedBytes) then ReadStep(read, length) else Fails
  }

  function CloseStep(stream: Stream): Step {
    if stream.Opened? || stream.Unusable? then stream.closes else Fine
  }

  /** All of one image, with this much already used by the request and by the store: the checks, the download with the
      close of its stream, the checks of what was written, and the close of the file. */
  ghost function BodyStep(limits: Limits, a: Attempt, requestBytes: nat, usedBytes: nat): Step {
    Then(a.fileChecked,
         Then(Finally(DownloadStep(limits, a.stream, requestBytes, usedBytes), CloseStep(a.stream)),
              Then(a.fileKept, Then(a.decodes, a.contentAgrees))))
  }

  function CreateStep(d: Descriptor, a: Attempt): Step {
    Then(a.directoryKept, Then(if d.supported then Fine else Fails, a.creates))
  }

  ghost function ImageStep(limits: Limits, d: Descriptor, a: Attempt, requestBytes: nat, usedBytes: nat): Step {
    Then(CreateStep(d, a), Finally(BodyStep(limits, a, requestBytes, usedBytes), a.released))
  }

  /** The image has a file, and all of its bytes are in it. */
  ghost predicate Downloaded(limits: Limits, d: Descriptor, a: Attempt, requestBytes: nat, usedBytes: nat) {
    CreateStep(d, a).Fine? && a.fileChecked.Fine? && DownloadStep(limits, a.stream, requestBytes, usedBytes).Fine?
  }

  /** Bytes the first `n` images declare. */
  function Declared(attempt: nat -> Attempt, n: nat): nat {
    if n == 0 then 0
    else
      var stream := attempt(n - 1).stream;
      Declared(attempt, n - 1) + (if stream.Opened? && stream.length > 0 then stream.length else 0)
  }

  /** Image `k` on top of those before it. */
  ghost function StepAt(limits: Limits, images: seq<Descriptor>, attempt: nat -> Attempt, usedBytes: nat, k: nat): Step
    requires k < |images|
  {
    ImageStep(limits, images[k], attempt(k), Declared(attempt, k), usedBytes + Declared(attempt, k))
  }

  ghost predicate StageTo(limits: Limits, images: seq<Descriptor>, attempt: nat -> Attempt, usedBytes: nat, n: nat)
    requires n <= |images|
  {
    forall k :: 0 <= k < n ==> StepAt(limits, images, attempt, usedBytes, k).Fine?
  }

  /** Every image is staged, each on top of those before it. */
  ghost predicate AllStage(limits: Limits, images: seq<Descriptor>, attempt: nat -> Attempt, usedBytes: nat) {
    StageTo(limits, images, attempt, usedBytes, |images|)
  }

  /** Image `k` is the first that is not staged. */
  ghost predicate Stops(limits: Limits, images: seq<Descriptor>, attempt: nat -> Attempt, usedBytes: nat, k: nat) {
    k < |images| && StageTo(limits, images, attempt, usedBytes, k) && !StepAt(limits, images, attempt, usedBytes, k).Fine?
  }

  /** The first image that is not staged is struck by an exception the store does not catch. */
  ghost predicate CutShort(limits: Limits, images: seq<Descriptor>, attempt: nat -> Attempt, usedBytes: nat) {
    exists k: nat ::
      Stops(limits, images, attempt, usedBytes, k) && StepAt(limits, images, attempt, usedBytes, k).Kills?
  }

  /** The first image that is not staged fails, leaves an incomplete file, and the removal of that file is struck. */
  ghost predicate StruckCleaning(limits: Limits, images: seq<Descriptor>, attempt: nat -> Attempt, usedBytes: nat) {
    exists k: nat ::
      && Stops(limits, images, attempt, usedBytes, k) && StepAt(limits, images, attempt, usedBytes, k).Fails?
      && LeavesPart(limits, images, attempt, usedBytes, k) && attempt(k).removable.Kills?
  }

  ghost predicate LeavesPart(limits: Limits, images: seq<Descriptor>, attempt: nat -> Attempt, usedBytes: nat, k: nat) {
    && k < |images| && CreateStep(images[k], attempt(k)).Fine?
    && !Downloaded(limits, images[k], attempt(k), Declared(attempt, k), usedBytes + Declared(attempt, k))
  }

  /** An uncaught exception leaves the provider loop, and so no receipt: while the directory is made, at the first image
      that is not staged, in the check of all files after the last, or while an incomplete file is removed. */
  ghost predicate Escapes(limits: Limits, images: seq<Descriptor>, env: Surroundings, usedBytes: nat) {
    if !env.directoryMade.Fine? then env.directoryMade.Kills?
    else if AllStage(limits, images, env.attempt, usedBytes) then env.filesKept.Kills?
    else CutShort(limits, images, env.attempt, usedBytes) || StruckCleaning(limits, images, env.attempt, usedBytes)
  }

  // ----- the same, step by step -----

  /** Bytes the streams of the first `n` images declare. */
  function LengthsTo(attempt: nat -> Attempt, n: nat): nat {
    if n == 0 then 0
    else LengthsTo(attempt, n - 1) + (match attempt(n - 1).stream case Opened(length, _, _) => if length < 0 then 0 else length case _ => 0)
  }

  lemma {:induction false} LengthsAreDeclared(attempt: nat -> Attempt, n: nat)
    ensures LengthsTo(attempt, n) == Declared(attempt, n)
  {
    if n > 0 {
      LengthsAreDeclared(attempt, n - 1);
    }
  }

  /** Every step of image `k` goes well: its format is supported, its file is made and checked, its stream declares a
      length that is positive and within all three limits and delivers exactly that, closes, and what was written is
      kept, decodes, agrees with what was streamed, and its file closes. */
  ghost predicate AllWell(limits: Limits, d: Descriptor, a: Attempt, before: nat, usedBytes: nat) {
    && d.supported && a.directoryKept.Fine? && a.creates.Fine? && a.fileChecked.Fine?
    && (match a.stream
        case Opened(length, read, closes) =>
          && 0 < length <= limits.imageBytes && before + length <= limits.requestBytes
          && usedBytes + before + length <= limits.aggregateBytes
          && (exists n: nat :: Delivers(read, length, n)) && closes.Fine?
        case _ => false)
    && a.fileKept.Fine? && a.decodes.Fine? && a.contentAgrees.Fine? && a.released.Fine?
  }

  /** All images are staged exactly if every step of every one goes well. */
  lemma AllStageExactly(limits: Limits, images: seq<Descriptor>, attempt: nat -> Attempt, usedBytes: nat)
    ensures AllStage(limits, images, attempt, usedBytes)
            <==> forall k :: 0 <= k < |images| ==>
                   AllWell(limits, images[k], attempt(k), LengthsTo(attempt, k), usedBytes)
  {
    forall k: nat | k < |images|
      ensures StepAt(limits, images, attempt, usedBytes, k).Fine?
              <==> AllWell(limits, images[k], attempt(k), LengthsTo(attempt, k), usedBytes)
    {
      LengthsAreDeclared(attempt, k);
      ImageWell(limits, images[k], attempt(k), Declared(attempt, k), usedBytes);
      hide AllWell, ImageStep;
    }
    hide AllWell, StepAt;
  }

  lemma ImageWell(limits: Limits, d: Descriptor, a: Attempt, before: nat, usedBytes: nat)
    ensures ImageStep(limits, d, a, before, usedBytes + before).Fine? <==> AllWell(limits, d, a, before, usedBytes)
  {
    hide Delivers, CutOff;
  }

  /** The first step of a list that is not fine, or fine. */
  function FirstOf(steps: seq<Step>): Step {
    if steps == [] then Fine else if !steps[0].Fine? then steps[0] else FirstOf(steps[1..])
  }

  /** One image: its steps in order. The file is closed whatever came of them, and a close that is not fine decides; the
      stream is closed whatever came of the download, and decides likewise. */
  lemma ImageStruckExactly(limits: Limits, d: Descriptor, a: Attempt, requestBytes: nat, usedBytes: nat)
    ensures
      var made := FirstOf([a.directoryKept, if d.supported then Fine else Fails, a.creates]);
      var download := DownloadStep(limits, a.stream, requestBytes, usedBytes);
      var closed := if a.stream.Opened? || a.stream.Unusable? then a.stream.closes else Fine;
      var body := FirstOf([a.fileChecked, if closed.Fine? then download else closed, a.fileKept, a.decodes, a.contentAgrees]);
      ImageStep(limits, d, a, requestBytes, usedBytes)
      == if !made.Fine? then made else if !a.released.Fine? then a.released else body
  {
    hide DownloadStep;
    FirstOfThree(a.directoryKept, if d.supported then Fine else Fails, a.creates);
    var closed := if a.stream.Opened? || a.stream.Unusable? then a.stream.closes else Fine;
    var download := DownloadStep(limits, a.stream, requestBytes, usedBytes);
    FirstOfFive(a.fileChecked, if closed.Fine? then download else closed, a.fileKept, a.decodes, a.contentAgrees);
    hide FirstOf;
  }

  lemma FirstOfThree(a: Step, b: Step, c: Step)
    ensures FirstOf([a, b, c]) == if !a.Fine? then a else if !b.Fine? then b else c
  {
    assert [a, b, c][1..] == [b, c] && [b, c][1..] == [c] && [c][1..] == [];
    assert FirstOf([c]) == c;
    assert FirstOf([b, c]) == if !b.Fine? then b else c;
  }

  lemma FirstOfFive(a: Step, b: Step, c: Step, d: Step, e: Step)
    ensures FirstOf([a, b, c, d, e])
            == if !a.Fine? then a else if !b.Fine? then b else if !c.Fine? then c else if !d.Fine? then d else e
  {
    assert [a, b, c, d, e][1..] == [b, c, d, e] && [b, c, d, e][1..] == [c, d, e];
    FirstOfThree(c, d, e);
  }

  // ----- byte accounting -----

  ghost function Total(files: map<nat, nat>): nat {
    if files == map[] then 0
    else
      var f :| f in files;
      files[f] + Total(files - {f})
  }

  lemma {:induction false} TotalTake(files: map<nat, nat>, f: nat)
    requires f in files
    ensures Total(files) == files[f] + Total(files - {f})
    decreases |files|
  {
    var picked :| picked in files && Total(files) == files[picked] + Total(files - {picked});
    if picked != f {
      TotalTake(files - {picked}, f);
      TotalTake(files - {f}, picked);
      assert files - {picked} - {f} == files - {f} - {picked};
    }
  }

  lemma TotalSet(files: map<nat, nat>, f: nat, bytes: nat)
    ensures Total(files[f := bytes]) == Total(files) - (if f in files then files[f] else 0) + bytes
  {
    TotalTake(files[f := bytes], f);
    assert files[f := bytes] - {f} == files - {f};
    if f in files {
      TotalTake(files, f);
    } else {
      assert files - {f} == files;
    }
  }

  ghost function OwnedBytes(owned: seq<Owned>): nat {
    if owned == [] then 0 else OwnedBytes(owned[..|owned| - 1]) + owned[|owned| - 1].bytes
  }

  lemma OwnedBytesLast(owned: seq<Owned>, o: Owned)
    ensures OwnedBytes(owned + [o]) == OwnedBytes(owned) + o.bytes
  {
    assert (owned + [o])[..|owned|] == owned;
  }

  /** The attempt's files on disk are its own, new, and as long as it counted. */
  ghost predicate OnDisk(before: map<nat, nat>, files: map<nat, nat>, owned: seq<Owned>) {
    && (forall f :: f in before ==> f in files && files[f] == before[f])
    && (forall f :: f in files && f !in before ==> exists i :: 0 <= i < |owned| && owned[i].storageId == f)
    && (forall i :: 0 <= i < |owned| ==>
          owned[i].storageId !in before && owned[i].storageId in files && files[owned[i].storageId] == owned[i].bytes)
    && (forall i, j :: 0 <= i < j < |owned| ==> owned[i].storageId != owned[j].storageId)
  }

  lemma OnDiskCreated(before: map<nat, nat>, files: map<nat, nat>, owned: seq<Owned>, f: nat)
    requires OnDisk(before, files, owned) && f !in files
    ensures OnDisk(before, files[f := 0], owned + [Owned(f, 0)])
  {
    var more := owned + [Owned(f, 0)];
    assert more[|owned|].storageId == f;
    forall g | g in files[f := 0] && g !in before
      ensures exists i :: 0 <= i < |more| && more[i].storageId == g
    {
      if g != f {
        var i :| 0 <= i < |owned| && owned[i].storageId == g;
        assert more[i].storageId == g;
      }
    }
  }

  lemma OnDiskLast(before: map<nat, nat>, files: map<nat, nat>, owned: seq<Owned>)
    requires OnDisk(before, files, owned) && owned != []
    ensures owned[|owned| - 1].storageId in files && files[owned[|owned| - 1].storageId] == owned[|owned| - 1].bytes
  {
  }

  lemma OnDiskRemoved(before: map<nat, nat>, files: map<nat, nat>, kept: seq<Owned>, o: Owned)
    requires OnDisk(before, files, kept + [o])
    ensures o.storageId in files && files[o.storageId] == o.bytes
    ensures OnDisk(before, files - {o.storageId}, kept)
  {
    var all := kept + [o];
    assert all[|kept|] == o && forall i :: 0 <= i < |kept| ==> all[i] == kept[i];
    forall f | f in files - {o.storageId} && f !in before
      ensures exists i :: 0 <= i < |kept| && kept[i].storageId == f
    {
      var i :| 0 <= i < |all| && all[i].storageId == f;
      assert kept[i].storageId == f;
    }
  }

  lemma OnDiskWritten(before: map<nat, nat>, files: map<nat, nat>, owned: seq<Owned>, bytes: nat)
    requires OnDisk(before, files, owned) && owned != []
    ensures
      var last := owned[|owned| - 1].storageId;
      OnDisk(before, files[last := bytes], owned[..|owned| - 1] + [Owned(last, bytes)])
  {
    var n := |owned| - 1;
    var last := owned[n].storageId;
    var more := owned[..n] + [Owned(last, bytes)];
    assert forall i :: 0 <= i < |owned| ==> more[i].storageId == owned[i].storageId;
    forall g | g in files[last := bytes] && g !in before
      ensures exists i :: 0 <= i < |more| && more[i].storageId == g
    {
      var i :| 0 <= i < |owned| && owned[i].storageId == g;
      assert more[i].storageId == g;
    }
  }

  /** One row of the provider log: which request entered the provider loop, and whether it was cut off there. */
  datatype Entry = Entry(requestId: string, killed: bool)

  /** Used bytes are the bytes of the files left, within the aggregate limit. */
  ghost predicate Accounting(limits: Limits, files: map<nat, nat>, usedBytes: nat, minted: nat) {
    && limits.Valid() && usedBytes == Total(files) && usedBytes <= limits.aggregateBytes
    && forall f :: f in files ==> f < minted
  }

  /** A receipt of a request that was refused before the provider loop. */
  predicate NeverLooped(receipt: Receipt) {
    receipt.state != Verified && receipt.images == [] && receipt.downloaded == 0 && receipt.retained == []
  }

  /** One receipt a request. A request has a receipt exactly if it came through the provider loop uncut or was refused
      before it; and only one that was cut off every time before may enter again. */
  ghost predicate Remembering(records: map<string, Receipt>, remotes: map<string, Remote>, entered: seq<Entry>) {
    && records.Keys == remotes.Keys && |records| <= MAX_RECORDS
    && (forall key :: key in records ==> records[key].requestId == key && remotes[key].requestId == key)
    && (forall i :: 0 <= i < |entered| && !entered[i].killed ==> entered[i].requestId in records)
    && (forall key :: key in records ==> Entry(key, false) in entered || NeverLooped(records[key]))
    && (forall i, j :: 0 <= i < j < |entered| && entered[i].requestId == entered[j].requestId ==> entered[i].killed)
  }

  /** A verified receipt lists one image for each remote descriptor, in order, each with its bytes on disk. */
  ghost predicate Vouching(records: map<string, Receipt>, remotes: map<string, Remote>, files: map<nat, nat>) {
    forall key :: key in records && key in remotes && records[key].state == Verified ==>
      AllListed(records[key].images, remotes[key].images, files)
  }

  lemma RecordsGrow(records: map<string, Receipt>, remotes: map<string, Remote>, entered: seq<Entry>,
                    receipt: Receipt, remote: Remote)
    requires Remembering(records, remotes, entered) && receipt.requestId == remote.requestId && remote.requestId !in records
    requires |records| < MAX_RECORDS
    ensures
      var (all, known) := (records[remote.requestId := receipt], remotes[remote.requestId := remote]);
      && (NeverLooped(receipt) ==> Remembering(all, known, entered))
      && Remembering(all, known, entered + [Entry(remote.requestId, false)])
  {
    var more := entered + [Entry(remote.requestId, false)];
    assert more[|entered|] == Entry(remote.requestId, false);
  }

  lemma CutOffGrows(records: map<string, Receipt>, remotes: map<string, Remote>, entered: seq<Entry>, key: string)
    requires Remembering(records, remotes, entered) && key !in records
    ensures Remembering(records, remotes, entered + [Entry(key, true)])
  {
  }

  lemma RecordReplaced(records: map<string, Receipt>, remotes: map<string, Remote>, entered: seq<Entry>,
                       files: map<nat, nat>, receipt: Receipt)
    requires Remembering(records, remotes, entered) && Vouching(records, remotes, files)
    requires receipt.requestId in records && records[receipt.requestId].state == Verified && receipt.state != Verified
    ensures Remembering(records[receipt.requestId := receipt], remotes, entered)
    ensures Vouching(records[receipt.requestId := receipt], remotes, files)
  {
    hide Remembering, Vouching;
    StillRemembering(records, remotes, entered, receipt);
    StillVouching(records, remotes, files, receipt);
  }

  lemma StillRemembering(records: map<string, Receipt>, remotes: map<string, Remote>, entered: seq<Entry>, receipt: Receipt)
    requires Remembering(records, remotes, entered) && receipt.requestId in records
    requires records[receipt.requestId].state == Verified
    ensures Remembering(records[receipt.requestId := receipt], remotes, entered)
  {
    assert records[receipt.requestId := receipt].Keys == records.Keys;
  }

  lemma StillVouching(records: map<string, Receipt>, remotes: map<string, Remote>, files: map<nat, nat>, receipt: Receipt)
    requires Vouching(records, remotes, files) && receipt.state != Verified
    ensures Vouching(records[receipt.requestId := receipt], remotes, files)
  {
    hide AllListed;
  }

  lemma VouchingGrows(records: map<string, Receipt>, remotes: map<string, Remote>, files: map<nat, nat>,
                      receipt: Receipt, remote: Remote)
    requires Vouching(records, remotes, files) && receipt.requestId == remote.requestId
    requires receipt.state == Verified ==> AllListed(receipt.images, remote.images, files)
    ensures Vouching(records[remote.requestId := receipt], remotes[remote.requestId := remote], files)
  {
    hide AllListed;
  }

  /** New files do not disturb older receipts. */
  lemma VouchingKept(records: map<string, Receipt>, remotes: map<string, Remote>, before: map<nat, nat>, after: map<nat, nat>)
    requires Vouching(records, remotes, before) && Keeps(before, after)
    ensures Vouching(records, remotes, after)
  {
  }

  class ContainedOutputStore {
    const limits: Limits
    var envelope: Option<nat>
    var records: map<string, Receipt>
    var remotes: map<string, Remote>
    var files: map<nat, nat>
    var usedBytes: nat
    var minted: nat
    ghost var entered: seq<Entry>

    ghost predicate Accounted()
      reads `files, `usedBytes, `minted
    {
      Accounting(limits, files, usedBytes, minted)
    }

    ghost predicate Valid()
      reads `files, `usedBytes, `minted, `records, `remotes, `entered
    {
      Accounted() && Remembering(records, remotes, entered) && Vouching(records, remotes, files)
    }

    constructor (limits: Limits)
      requires limits.Valid()
      ensures Valid() && records == map[] && files == map[] && entered == [] && this.limits == limits
      ensures usedBytes == 0 && envelope.None?
    {
      this.limits := limits;
      envelope, records, remotes, files, usedBytes, minted, entered := None, map[], map[], map[], 0, 0, [];
    }

    /** Create the next file of an attempt. */
    method CreateFile(ghost before: map<nat, nat>, owned: seq<Owned>) returns (more: seq<Owned>)
      requires Accounted() && OnDisk(before, files, owned)
      modifies `files, `minted
      ensures Accounted() && OnDisk(before, files, more) && more == owned + [Owned(old(minted), 0)]
      ensures OwnedBytes(more) == OwnedBytes(owned)
    {
      hide OnDisk, Total;
      TotalSet(files, minted, 0);
      OnDiskCreated(before, files, owned, minted);
      more := owned + [Owned(minted, 0)];
      OwnedBytesLast(owned, Owned(minted, 0));
      files, minted := files[minted := 0], minted + 1;
    }

    /** Count one chunk written to the newest file. */
    method Write(ghost before: map<nat, nat>, owned: seq<Owned>, count: nat) returns (more: seq<Owned>)
      requires Accounted() && OnDisk(before, files, owned) && owned != []
      requires usedBytes + count <= limits.aggregateBytes
      modifies `files, `usedBytes
      ensures Accounted() && OnDisk(before, files, more) && usedBytes == old(usedBytes) + count
      ensures
        var last := owned[|owned| - 1];
        more == owned[..|owned| - 1] + [Owned(last.storageId, last.bytes + count)]
      ensures OwnedBytes(more) == OwnedBytes(owned) + count
    {
      hide OnDisk, Total, OwnedBytes;
      var n := |owned| - 1;
      var last := owned[n];
      OnDiskWritten(before, files, owned, last.bytes + count);
      OnDiskLast(before, files, owned);
      TotalSet(files, last.storageId, last.bytes + count);
      OwnedBytesLast(owned[..n], last);
      assert owned == owned[..n] + [last];
      more := owned[..n] + [Owned(last.storageId, last.bytes + count)];
      OwnedBytesLast(owned[..n], Owned(last.storageId, last.bytes + count));
      files, usedBytes := files[last.storageId := last.bytes + count], usedBytes + count;
    }

    /** The bounded read loop: it ends at the declared length, and nothing longer is ever written. */
    method ReadStream(ghost before: map<nat, nat>, owned: seq<Owned>, length: nat, read: nat -> Chunk)
      returns (r: Outcome<()>, more: seq<Owned>)
      requires Accounted() && OnDisk(before, files, owned) && owned != [] && owned[|owned| - 1].bytes == 0
      requires usedBytes + length <= limits.aggregateBytes
      modifies `files, `usedBytes
      ensures Accounted() && OnDisk(before, files, more)
      ensures |more| == |owned| && more[..|more| - 1] == owned[..|owned| - 1]
      ensures more[|more| - 1].storageId == owned[|owned| - 1].storageId && more[|more| - 1].bytes <= length
      ensures usedBytes == old(usedBytes) + more[|more| - 1].bytes
      ensures OwnedBytes(more) == OwnedBytes(owned) + more[|more| - 1].bytes
      ensures r.Ok? <==> exists n: nat :: Delivers(read, length, n)
      ensures r == Failed(Interrupted) <==> exists n: nat :: CutOff(read, length, n)
      ensures r.Ok? ==> more[|more| - 1].bytes == length
      ensures r.Failed? ==> r.code in {DownloadContractInvalid, ShortDownload, DownloadSizeLimit, DownloadInterrupted, Interrupted}
    {
      hide OnDisk, Total;
      more := owned;
      var count, i := 0, 0;
      while true
        invariant Accounted() && OnDisk(before, files, more)
        invariant |more| == |owned| && more[..|more| - 1] == owned[..|owned| - 1]
        invariant more[|more| - 1] == Owned(owned[|owned| - 1].storageId, count) && count <= length
        invariant usedBytes == old(usedBytes) + count && OwnedBytes(more) == OwnedBytes(owned) + count
        invariant count == Received(read, i)
        invariant forall j :: 0 <= j < i ==> read(j).Bytes? && 0 < read(j).count <= CHUNK_BYTES
        decreases length - count
      {
        var limit := if CHUNK_BYTES < length - count + 1 then CHUNK_BYTES else length - count + 1;
        var chunk := read(i);
        if !chunk.Bytes? || chunk.count > limit {
          NoDelivery(read, length, i);
          if chunk.Killed? {
            assert CutOff(read, length, i);
          } else {
            NoCutOff(read, length, i);
          }
          return Failed(match chunk
                        case Killed => Interrupted
                        case Raises => DownloadInterrupted
                        case _ => DownloadContractInvalid), more;
        }
        if chunk.count == 0 {
          NoCutOff(read, length, i);
          if count != length {
            NoDelivery(read, length, i);
            return Failed(ShortDownload), more;
          }
          assert Delivers(read, length, i);
          return Ok(()), more;
        }
        if count + chunk.count > length {
          NoDelivery(read, length, i);
          NoCutOff(read, length, i);
          return Failed(DownloadSizeLimit), more;
        }
        more := Write(before, more, chunk.count);
        count, i := count + chunk.count, i + 1;
      }
    }

    /** Stage one image. A file whose bytes are complete stays, whatever comes after; the image is verified once its
        content agrees, whatever closing the file does. */
    method StageImage(ghost before: map<nat, nat>, owned: seq<Owned>, requestBytes: nat, d: Descriptor, a: Attempt)
      returns (r: Outcome<()>, more: seq<Owned>, complete: bool, image: Option<LocalImage>)
      requires Accounted() && OnDisk(before, files, owned) && requestBytes == OwnedBytes(owned) <= limits.requestBytes
      modifies `files, `usedBytes, `minted
      ensures Accounted() && OnDisk(before, files, more) && OwnedBytes(more) <= limits.requestBytes
      ensures usedBytes == old(usedBytes) + OwnedBytes(more) - OwnedBytes(owned)
      ensures if CreateStep(d, a).Fine? then |more| == |owned| + 1 && more[..|owned|] == owned else more == owned
      ensures complete <==> Downloaded(limits, d, a, requestBytes, old(usedBytes))
      ensures complete ==> |more| == |owned| + 1 && a.stream.Opened? && a.stream.length == more[|owned|].bytes > 0
      ensures image.Some? ==> complete && image.value == LocalImage(d.identity, more[|owned|].bytes, more[|owned|].storageId)
                              && d.supported && a.decodes.Fine? && a.contentAgrees.Fine?
      ensures r.Ok? ==> image.Some?
      ensures r.Ok? <==> ImageStep(limits, d, a, requestBytes, old(usedBytes)).Fine?
      ensures r == Failed(Interrupted) <==> ImageStep(limits, d, a, requestBytes, old(usedBytes)).Kills?
    {
      hide OnDisk, Total, OwnedBytes, DownloadStep;
      more, complete, image := owned, false, None;
      if !a.directoryKept.Fine? {
        return Raise(a.directoryKept, UnsafeStorage), more, complete, image;
      }
      if !d.supported {
        return Failed(UnsupportedImageFormat), more, complete, image;
      }
      if !a.creates.Fine? {
        return Raise(a.creates, StorageUnavailable), more, complete, image;
      }
      more := CreateFile(before, owned);
      r, more, complete := StageBody(before, more, requestBytes, a);
      if r.Ok? {
        image := Some(LocalImage(d.identity, more[|owned|].bytes, more[|owned|].storageId));
      }
      if !a.released.Fine? {
        r := Raise(a.released, StorageUnavailable);
      }
    }

    /** What is done while the image's file is open. */
    method StageBody(ghost before: map<nat, nat>, owned: seq<Owned>, requestBytes: nat, a: Attempt)
      returns (r: Outcome<()>, more: seq<Owned>, complete: bool)
      requires Accounted() && OnDisk(before, files, owned) && requestBytes == OwnedBytes(owned) <= limits.requestBytes
      requires owned != [] && owned[|owned| - 1].bytes == 0
      modifies `files, `usedBytes
      ensures Accounted() && OnDisk(before, files, more) && OwnedBytes(more) <= limits.requestBytes
      ensures |more| == |owned| && more[..|more| - 1] == owned[..|owned| - 1]
      ensures usedBytes == old(usedBytes) + OwnedBytes(more) - OwnedBytes(owned)
      ensures complete <==> a.fileChecked.Fine? && DownloadStep(limits, a.stream, requestBytes, old(usedBytes)).Fine?
      ensures complete ==> more[|more| - 1].bytes > 0 && a.stream.Opened? && a.stream.length == more[|more| - 1].bytes
      ensures r.Ok? ==> complete && a.decodes.Fine? && a.contentAgrees.Fine?
      ensures r.Ok? <==> BodyStep(limits, a, requestBytes, old(usedBytes)).Fine?
      ensures r == Failed(Interrupted) <==> BodyStep(limits, a, requestBytes, old(usedBytes)).Kills?
    {
      hide OnDisk, Total, OwnedBytes, DownloadStep;
      more, complete := owned, false;
      if !a.fileChecked.Fine? {
        return Raise(a.fileChecked, UnsafeStorage), more, complete;
      }
      r, more := Download(before, owned, requestBytes, a.stream);
      complete := r.Ok?;
      if !CloseStep(a.stream).Fine? {
        r := Raise(CloseStep(a.stream), DownloadInterrupted);
      }
      if r.Failed? {
        return r, more, complete;
      }
      if !a.fileKept.Fine? {
        return Raise(a.fileKept, UnsafeStorage), more, complete;
      }
      if !a.decodes.Fine? {
        return Raise(a.decodes, ImageRejected), more, complete;
      }
      if !a.contentAgrees.Fine? {
        return Raise(a.contentAgrees, LocalContentConflict), more, complete;
      }
    }

    /** Call the provider, check the declared length against every limit, then read it. */
    method Download(ghost before: map<nat, nat>, owned: seq<Owned>, requestBytes: nat, stream: Stream)
      returns (r: Outcome<()>, more: seq<Owned>)
      requires Accounted() && OnDisk(before, files, owned) && requestBytes == OwnedBytes(owned) <= limits.requestBytes
      requires owned != [] && owned[|owned| - 1].bytes == 0
      modifies `files, `usedBytes
      ensures Accounted() && OnDisk(before, files, more) && OwnedBytes(more) <= limits.requestBytes
      ensures |more| == |owned| && more[..|more| - 1] == owned[..|owned| - 1]
      ensures usedBytes == old(usedBytes) + OwnedBytes(more) - OwnedBytes(owned)
      ensures r.Ok? <==> DownloadStep(limits, stream, requestBytes, old(usedBytes)).Fine?
      ensures r == Failed(Interrupted) <==> DownloadStep(limits, stream, requestBytes, old(usedBytes)).Kills?
      ensures r.Ok? ==> stream.Opened? && stream.length == more[|more| - 1].bytes > 0
    {
      hide OnDisk, Total, OwnedBytes, Delivers, CutOff;
      more := owned;
      if !stream.Opened? {
        return Failed(match stream
                      case Raised => DownloadInterrupted
                      case Struck => Interrupted
                      case _ => DownloadContractInvalid), more;
      }
      var length := stream.length;
      if length <= 0 {
        return Failed(EmptyDownload), more;
      }
      if length > limits.imageBytes || requestBytes + length > limits.requestBytes
         || usedBytes + length > limits.aggregateBytes {
        return Failed(DownloadSizeLimit), more;
      }
      r, more := ReadStream(before, owned, length, stream.read);
    }

    /** The descriptor loop. The first `|images|` files are complete and verified; a failure may leave one more,
        complete or not. */
    method StageImages(ghost before: map<nat, nat>, remote: Remote, attempt: nat -> Attempt)
      returns (r: Outcome<()>, images: seq<LocalImage>, owned: seq<Owned>, downloaded: nat)
      requires Accounted() && files == before
      modifies `files, `usedBytes, `minted
      ensures Accounted() && OnDisk(before, files, owned) && OwnedBytes(owned) <= limits.requestBytes
      ensures usedBytes == old(usedBytes) + OwnedBytes(owned)
      ensures |images| <= downloaded <= |owned| <= |images| + 1 && |images| <= |remote.images|
      ensures forall i :: 0 <= i < |images| ==> Listed(images[i], owned[i], remote.images, i, attempt)
      ensures r.Ok? ==> |images| == downloaded == |owned| == |remote.images|
      ensures r.Ok? <==> AllStage(limits, remote.images, attempt, old(usedBytes))
      ensures r == Failed(Interrupted) <==> CutShort(limits, remote.images, attempt, old(usedBytes))
      ensures r.Failed? && r.code != Interrupted ==>
                (StruckCleaning(limits, remote.images, attempt, old(usedBytes))
                 <==> |owned| > downloaded && attempt(downloaded).removable.Kills?)
    {
      hide OnDisk, Total, OwnedBytes, ImageStep, StageTo, Listed, Declared, CutShort, StruckCleaning, Downloaded, CreateStep;
      NothingStaged(limits, remote.images, attempt, usedBytes);
      NothingOwned(before);
      images, owned, downloaded := [], [], 0;
      var start := usedBytes;
      for k := 0 to |remote.images|
        invariant Accounted() && OnDisk(before, files, owned) && OwnedBytes(owned) <= limits.requestBytes
        invariant usedBytes == old(usedBytes) + OwnedBytes(owned)
        invariant |images| == k == downloaded == |owned|
        invariant forall i :: 0 <= i < k ==> Listed(images[i], owned[i], remote.images, i, attempt)
        invariant OwnedBytes(owned) == Declared(attempt, k)
        invariant StageTo(limits, remote.images, attempt, old(usedBytes), k)
      {
        var requestBytes := usedBytes - start;
        var step, more, complete, image := StageImage(before, owned, requestBytes, remote.images[k], attempt(k));
        assert forall i :: 0 <= i < k ==> more[i] == owned[i];
        if image.Some? {
          OwnedBytesLast(owned, more[k]);
          assert more == owned + [more[k]];
          ListedIs(image.value, more[k], remote.images, k, attempt);
          images := images + [image.value];
        }
        if step.Ok? {
          StageNext(limits, remote.images, attempt, old(usedBytes), k);
        }
        owned, downloaded := more, if complete then downloaded + 1 else downloaded;
        if step.Failed? {
          StoppedHere(limits, remote.images, attempt, old(usedBytes), k);
          return Failed(step.code), images, owned, downloaded;
        }
      }
      NeverStopped(limits, remote.images, attempt, old(usedBytes));
      r := Ok(());
    }

    method RemoveLast(ghost before: map<nat, nat>, ghost kept: seq<Owned>, o: Owned)
      requires Accounted() && OnDisk(before, files, kept + [o])
      modifies `files, `usedBytes
      ensures Accounted() && OnDisk(before, files, kept) && usedBytes == old(usedBytes) - o.bytes
    {
      hide OnDisk, Total, OwnedBytes;
      OnDiskRemoved(before, files, kept, o);
      TotalTake(files, o.storageId);
      files, usedBytes := files - {o.storageId}, usedBytes - o.bytes;
    }

    /** Keep every complete file as evidence; remove what is incomplete and still the store's own. Only the newest file
        can be incomplete; an uncaught exception in its removal ends everything and removes nothing. */
    method CleanUp(ghost before: map<nat, nat>, owned: seq<Owned>, downloaded: nat, attempt: nat -> Attempt)
      returns (struck: bool, retained: seq<nat>, ghost kept: seq<Owned>)
      requires Accounted() && OnDisk(before, files, owned) && downloaded <= |owned| <= downloaded + 1
      modifies `files, `usedBytes
      ensures Accounted() && OnDisk(before, files, kept)
      ensures usedBytes == old(usedBytes) + OwnedBytes(kept) - OwnedBytes(owned)
      ensures struck <==> |owned| > downloaded && attempt(downloaded).removable.Kills?
      ensures !struck ==> |retained| == |kept| && forall i :: 0 <= i < |kept| ==> retained[i] == kept[i].storageId
      ensures kept == (if |owned| > downloaded && attempt(downloaded).removable.Fine? then owned[..downloaded] else owned)
    {
      hide OnDisk, Total, OwnedBytes;
      struck, retained, kept := false, [], [];
      for i := 0 to |owned|
        invariant !struck && |retained| == |kept| && forall j :: 0 <= j < |kept| ==> retained[j] == kept[j].storageId
        invariant i > downloaded ==> !attempt(downloaded).removable.Kills?
        invariant if i <= downloaded then kept == owned[..i]
                  else kept == (if attempt(downloaded).removable.Fine? then owned[..downloaded] else owned)
        invariant Accounted() && OnDisk(before, files, if i <= downloaded then owned else kept)
        invariant usedBytes == old(usedBytes) + (if i <= downloaded then 0 else OwnedBytes(kept) - OwnedBytes(owned))
      {
        var o := owned[i];
        assert owned[..i + 1] == owned[..i] + [o];
        if i >= downloaded && attempt(i).removable.Kills? {
          return true, retained, owned;
        }
        if i >= downloaded && attempt(i).removable.Fine? {
          assert owned == owned[..i] + [o];
          OwnedBytesLast(owned[..i], o);
          RemoveLast(before, owned[..i], o);
        } else {
          retained, kept := retained + [o.storageId], kept + [o];
          assert i >= downloaded ==> kept == owned;
        }
      }
      assert owned[..|owned|] == owned;
    }

    /** One receipt a request, kept for good. */
    method Remember(remote: Remote, state: State, failure: Option<Code>, images: seq<LocalImage>, downloaded: nat,
                    retained: seq<nat>, ghost looped: bool)
      returns (receipt: Receipt)
      requires Valid() && remote.requestId !in records && |records| < MAX_RECORDS
      requires state == Verified ==> AllListed(images, remote.images, files)
      requires !looped ==> state != Verified && images == [] && downloaded == 0 && retained == []
      modifies `records, `remotes, `entered
      ensures Valid()
      ensures receipt == Receipt(remote.requestId, remote.identity, state, failure, images, downloaded, retained)
      ensures records == old(records)[remote.requestId := receipt] && remotes == old(remotes)[remote.requestId := remote]
      ensures entered == if looped then old(entered) + [Entry(remote.requestId, false)] else old(entered)
    {
      receipt := Receipt(remote.requestId, remote.identity, state, failure, images, downloaded, retained);
      RecordsGrow(records, remotes, entered, receipt, remote);
      VouchingGrows(records, remotes, files, receipt, remote);
      hide Remembering, Vouching, Accounting, AllListed;
      records, remotes := records[remote.requestId := receipt], remotes[remote.requestId := remote];
      if looped {
        entered := entered + [Entry(remote.requestId, false)];
      }
    }

    /** The provider loop and its receipt. */
    method StageNew(remote: Remote, env: Surroundings) returns (r: Outcome<Receipt>)
      requires Valid() && remote.requestId !in records && |records| < MAX_RECORDS
      modifies `records, `remotes, `files, `usedBytes, `minted, `entered
      ensures Valid()
      ensures Keeps(old(files), files) && old(usedBytes) <= usedBytes <= old(usedBytes) + limits.requestBytes
      ensures entered == old(entered) + [Entry(remote.requestId, r.Failed?)] && (r.Failed? ==> r.code == Interrupted)
      ensures r.Failed? <==> Escapes(limits, remote.images, env, old(usedBytes))
      ensures r.Ok? ==> records == old(records)[remote.requestId := r.value]
      ensures r.Ok? && r.value.state == Verified ==> AllSucceeded(r.value, remote, env)
      ensures r.Ok? ==> (r.value.state == Verified <==>
                           env.directoryMade.Fine? && env.filesKept.Fine?
                           && AllStage(limits, remote.images, env.attempt, old(usedBytes)))
      ensures r.Ok? ==> (r.value.failure.None? <==> r.value.state == Verified)
      ensures r.Ok? && r.value.state != Verified ==> (r.value.state == Quarantined <==> r.value.downloaded > 0)
      ensures r.Ok? ==> forall f :: f in r.value.retained <==> f in files && f !in old(files)
      ensures r.Failed? ==> records == old(records) && remotes == old(remotes)
    {
      hide OnDisk, Total, OwnedBytes, AllListed, AllSucceeded, Keeps, Listed, Vouching, Remembering, AllStage, CutShort,
        StruckCleaning, Accounting;
      AggregateHolds(limits, files, usedBytes, minted);
      ghost var before := files;
      NothingOwned(before);
      CutOffGrows(records, remotes, entered, remote.requestId);
      var outcome, images, owned, downloaded := Raise(env.directoryMade, StorageUnavailable), [], [], 0;
      if env.directoryMade.Fine? {
        outcome, images, owned, downloaded := StageImages(before, remote, env.attempt);
        if outcome.Ok? && !env.filesKept.Fine? {
          outcome := Raise(env.filesKept, UnsafeStorage);
        }
      }
      OnDiskKeeps(before, files, owned);
      VouchingKept(records, remotes, before, files);
      if outcome == Failed(Interrupted) {
        entered := entered + [Entry(remote.requestId, true)];
        return Failed(Interrupted);
      }
      if outcome.Ok? {
        ListedOnDisk(before, files, images, owned, remote, env);
        NewFiles(before, files, owned, Ids(owned));
        var receipt := Remember(remote, Verified, None, images, downloaded, Ids(owned), true);
        return Ok(receipt);
      }
      var struck, retained, kept := CleanUp(before, owned, downloaded, env.attempt);
      KeptBytes(owned, downloaded, kept);
      OnDiskKeeps(before, files, kept);
      VouchingKept(records, remotes, before, files);
      if struck {
        entered := entered + [Entry(remote.requestId, true)];
        return Failed(Interrupted);
      }
      NewFiles(before, files, kept, retained);
      var receipt := Remember(remote, if downloaded > 0 then Quarantined else Incomplete, Some(outcome.code), images,
                              downloaded, retained, true);
      r := Ok(receipt);
    }

    /** Check a verified receipt's files again; a lost one quarantines the receipt for good. */
    method Revalidate(receipt: Receipt, intact: bool) returns (r: Outcome<Receipt>)
      requires Valid()
      modifies `records
      ensures Valid()
      ensures receipt.requestId !in old(records) || old(records)[receipt.requestId] != receipt ==>
                r == Failed(LocalReceiptConflict) && records == old(records)
      ensures receipt.requestId in old(records) && old(records)[receipt.requestId] == receipt ==>
                if receipt.state != Verified || intact then r == Ok(receipt) && records == old(records)
                else
                  && r == Failed(LocalContentConflict)
                  && var lost := receipt.(state := Quarantined, failure := Some(StorageIntegrityLost));
                  records == old(records)[receipt.requestId := lost]
    {
      hide Vouching, Accounting, Remembering;
      if receipt.requestId !in records || records[receipt.requestId] != receipt {
        return Failed(LocalReceiptConflict);
      }
      if receipt.state != Verified || intact {
        return Ok(receipt);
      }
      var after := receipt.(state := Quarantined, failure := Some(StorageIntegrityLost));
      RecordReplaced(records, remotes, entered, files, after);
      records := records[receipt.requestId := after];
      r := Failed(LocalContentConflict);
    }

    method Quarantine(receipt: Receipt) returns (r: Outcome<Receipt>)
      requires Valid()
      modifies `records
      ensures Valid() && files == old(files) && usedBytes == old(usedBytes)
      ensures r.Ok? <==> receipt.requestId in old(records) && old(records)[receipt.requestId] == receipt
      ensures r.Ok? ==> r.value.state != Verified && records == old(records)[receipt.requestId := r.value]
                        && r.value == (if receipt.state == Verified
                                       then receipt.(state := Quarantined, failure := Some(HostCustodyInvalidated)) else receipt)
      ensures r.Failed? ==> records == old(records)
    {
      hide Vouching, Accounting, Remembering;
      if receipt.requestId !in records || records[receipt.requestId] != receipt {
        return Failed(LocalReceiptConflict);
      }
      var after := receipt;
      if receipt.state == Verified {
        after := receipt.(state := Quarantined, failure := Some(HostCustodyInvalidated));
        RecordReplaced(records, remotes, entered, files, after);
        records := records[receipt.requestId := after];
      }
      r := Ok(after);
    }

    /** The provider loop is entered exactly for a request without a receipt that nothing refuses before. */
    predicate Enters(remote: Remote, env: Surroundings)
      reads `envelope, `records
    {
      && env.bindingHolds && (envelope.None? || envelope.value == env.envelope)
      && remote.requestId !in records && |records| < MAX_RECORDS
      && remote.executionSucceeded && |remote.images| <= limits.images && env.providerCallable
    }

    /** Stage one request. A request with a receipt never reaches the provider again. */
    method Stage(remote: Remote, env: Surroundings) returns (r: Outcome<Receipt>)
      requires Valid()
      modifies this
      ensures Valid()
      ensures Keeps(old(files), files) && old(usedBytes) <= usedBytes <= old(usedBytes) + limits.requestBytes
      ensures entered == if old(Enters(remote, env)) then old(entered) + [Entry(remote.requestId, r == Failed(Interrupted))]
                         else old(entered)
      ensures r == Failed(Interrupted)
              <==> old(Enters(remote, env)) && Escapes(limits, remote.images, env, old(usedBytes))
      ensures r.Failed? && old(Enters(remote, env)) ==>
                r.code == Interrupted && records == old(records) && envelope == Some(env.envelope)
      ensures remote.requestId in old(records) ==> entered == old(entered) && files == old(files) && usedBytes == old(usedBytes)
      ensures r.Ok? && remote.requestId !in old(records) ==>
                && records == old(records)[remote.requestId := r.value]
                && (r.value.state == Verified ==> AllSucceeded(r.value, remote, env))
                && (r.value.state == Verified <==>
                      && remote.executionSucceeded && |remote.images| <= limits.images && env.providerCallable
                      && env.directoryMade.Fine? && env.filesKept.Fine?
                      && AllStage(limits, remote.images, env.attempt, old(usedBytes)))
      ensures !env.bindingHolds ==> r == Failed(RemoteCorrelationMismatch) && entered == old(entered) && records == old(records)
      ensures r.Ok? && !remote.executionSucceeded && remote.requestId !in old(records) ==>
                r.value.state == Quarantined && entered == old(entered) && files == old(files)
    {
      hide Vouching, Accounting, AllSucceeded, AllListed, Keeps, AllStage, Escapes, Remembering;
      KeysAgree(records, remotes, entered);
      KeepsAll(files);
      LimitsHold(limits, files, usedBytes, minted);
      if !env.bindingHolds {
        return Failed(RemoteCorrelationMismatch);
      }
      if envelope.Some? && envelope.value != env.envelope {
        return Failed(StorageOwnerMismatch);
      }
      envelope := Some(env.envelope);
      if remote.requestId in records {
        if remotes[remote.requestId] != remote {
          return Failed(LocalReceiptConflict);
        }
        r := Revalidate(records[remote.requestId], env.intact);
        return r;
      }
      if |records| >= MAX_RECORDS {
        return Failed(StorageCapacity);
      }
      if !remote.executionSucceeded {
        var receipt := Remember(remote, Quarantined, Some(ExecutionSuccessUnproven), [], 0, [], false);
        return Ok(receipt);
      }
      if |remote.images| > limits.images || !env.providerCallable {
        var receipt := Remember(remote, Incomplete, Some(DownloadContractInvalid), [], 0, [], false);
        return Ok(receipt);
      }
      r := StageNew(remote, env);
    }
  }

  ghost predicate Keeps(before: map<nat, nat>, after: map<nat, nat>) {
    forall f :: f in before ==> f in after && after[f] == before[f]
  }

  function Ids(owned: seq<Owned>): seq<nat> { seq(|owned|, i requires 0 <= i < |owned| => owned[i].storageId) }

  /** One image for each descriptor, in order, with its exact bytes in a file of its own. */
  ghost predicate AllListed(images: seq<LocalImage>, descriptors: seq<Descriptor>, files: map<nat, nat>) {
    && |images| == |descriptors|
    && forall i :: 0 <= i < |images| ==>
         && images[i].descriptorIdentity == descriptors[i].identity
         && images[i].storageId in files && files[images[i].storageId] == images[i].byteCount > 0
  }

  /** Every image was declared with exactly the bytes on record, decoded, and read back unchanged. */
  ghost predicate AllSucceeded(receipt: Receipt, remote: Remote, env: Surroundings) {
    && |receipt.images| == |remote.images|
    && forall i :: 0 <= i < |remote.images| ==>
         && remote.images[i].supported && env.attempt(i).stream.Opened?
         && env.attempt(i).stream.length == receipt.images[i].byteCount
         && receipt.images[i].descriptorIdentity == remote.images[i].identity
         && env.attempt(i).decodes.Fine? && env.attempt(i).contentAgrees.Fine?
  }

  lemma KeysAgree(records: map<string, Receipt>, remotes: map<string, Remote>, entered: seq<Entry>)
    requires Remembering(records, remotes, entered)
    ensures records.Keys == remotes.Keys && forall key :: key in records ==> records[key].requestId == key
  {
  }

  lemma KeepsAll(files: map<nat, nat>)
    ensures Keeps(files, files)
  {
  }

  lemma LimitsHold(limits: Limits, files: map<nat, nat>, usedBytes: nat, minted: nat)
    requires Accounting(limits, files, usedBytes, minted)
    ensures limits.Valid()
  {
  }

  lemma AggregateHolds(limits: Limits, files: map<nat, nat>, usedBytes: nat, minted: nat)
    requires Accounting(limits, files, usedBytes, minted)
    ensures usedBytes == Total(files) <= limits.aggregateBytes
  {
  }

  lemma ListedOnDisk(before: map<nat, nat>, files: map<nat, nat>, images: seq<LocalImage>, owned: seq<Owned>, remote: Remote,
                     env: Surroundings)
    requires OnDisk(before, files, owned) && |images| == |owned| == |remote.images|
    requires forall i :: 0 <= i < |images| ==> Listed(images[i], owned[i], remote.images, i, env.attempt)
    ensures AllListed(images, remote.images, files)
    ensures forall receipt: Receipt :: receipt.images == images ==> AllSucceeded(receipt, remote, env)
  {
    assert forall i :: 0 <= i < |images| ==> Listed(images[i], owned[i], remote.images, i, env.attempt);
  }

  lemma OnDiskKeeps(before: map<nat, nat>, files: map<nat, nat>, owned: seq<Owned>)
    requires OnDisk(before, files, owned)
    ensures Keeps(before, files)
  {
  }

  lemma NewFiles(before: map<nat, nat>, files: map<nat, nat>, owned: seq<Owned>, ids: seq<nat>)
    requires OnDisk(before, files, owned) && |ids| == |owned| && forall i :: 0 <= i < |ids| ==> ids[i] == owned[i].storageId
    ensures forall f :: f in ids <==> f in files && f !in before
  {
    forall f | f in files && f !in before
      ensures f in ids
    {
      var i :| 0 <= i < |owned| && owned[i].storageId == f;
      assert ids[i] == f;
    }
  }

  lemma KeptBytes(owned: seq<Owned>, downloaded: nat, kept: seq<Owned>)
    requires downloaded <= |owned| <= downloaded + 1 && (kept == owned || kept == owned[..downloaded])
    ensures OwnedBytes(kept) <= OwnedBytes(owned)
  {
    if |owned| > downloaded {
      OwnedBytesLast(owned[..downloaded], owned[downloaded]);
      assert owned == owned[..downloaded] + [owned[downloaded]];
    } else {
      assert owned[..downloaded] == owned;
    }
  }

  lemma ListedIs(image: LocalImage, o: Owned, images: seq<Descriptor>, i: nat, attempt: nat -> Attempt)
    ensures Listed(image, o, images, i, attempt) <==>
              && i < |images| && image == LocalImage(images[i].identity, o.bytes, o.storageId) && o.bytes > 0
              && attempt(i).stream.Opened? && attempt(i).stream.length == o.bytes && images[i].supported
              && attempt(i).decodes.Fine? && attempt(i).contentAgrees.Fine?
  {
  }

  /** A verified image stands for its descriptor: same place, exactly the declared bytes, in the file made for it. */
  ghost predicate Listed(image: LocalImage, o: Owned, images: seq<Descriptor>, i: nat, attempt: nat -> Attempt) {
    && i < |images| && image == LocalImage(images[i].identity, o.bytes, o.storageId) && o.bytes > 0
    && attempt(i).stream.Opened? && attempt(i).stream.length == o.bytes && images[i].supported
    && attempt(i).decodes.Fine? && attempt(i).contentAgrees.Fine?
  }

  lemma NothingStaged(limits: Limits, images: seq<Descriptor>, attempt: nat -> Attempt, usedBytes: nat)
    ensures StageTo(limits, images, attempt, usedBytes, 0) && Declared(attempt, 0) == 0
  {
  }

  lemma StageNext(limits: Limits, images: seq<Descriptor>, attempt: nat -> Attempt, usedBytes: nat, k: nat)
    requires k < |images| && StageTo(limits, images, attempt, usedBytes, k)
    requires ImageStep(limits, images[k], attempt(k), Declared(attempt, k), usedBytes + Declared(attempt, k)).Fine?
    ensures StageTo(limits, images, attempt, usedBytes, k + 1)
    ensures attempt(k).stream.Opened? && attempt(k).stream.length > 0 ==>
              Declared(attempt, k + 1) == Declared(attempt, k) + attempt(k).stream.length
  {
    hide ImageStep;
    assert StepAt(limits, images, attempt, usedBytes, k).Fine?;
  }

  /** An image that is not staged is the only one at which the loop can stop. */
  lemma OnlyStop(limits: Limits, images: seq<Descriptor>, attempt: nat -> Attempt, usedBytes: nat, k: nat, n: nat)
    requires Stops(limits, images, attempt, usedBytes, k) && Stops(limits, images, attempt, usedBytes, n)
    ensures n == k
  {
    hide StepAt;
  }

  /** What the first image that is not staged decides. */
  lemma StoppedHere(limits: Limits, images: seq<Descriptor>, attempt: nat -> Attempt, usedBytes: nat, k: nat)
    requires k < |images| && StageTo(limits, images, attempt, usedBytes, k)
    requires !ImageStep(limits, images[k], attempt(k), Declared(attempt, k), usedBytes + Declared(attempt, k)).Fine?
    ensures !AllStage(limits, images, attempt, usedBytes)
    ensures var step := ImageStep(limits, images[k], attempt(k), Declared(attempt, k), usedBytes + Declared(attempt, k));
            && (CutShort(limits, images, attempt, usedBytes) <==> step.Kills?)
            && (StruckCleaning(limits, images, attempt, usedBytes)
                <==> step.Fails? && CreateStep(images[k], attempt(k)).Fine?
                     && !Downloaded(limits, images[k], attempt(k), Declared(attempt, k), usedBytes + Declared(attempt, k))
                     && attempt(k).removable.Kills?)
  {
    hide StageTo, ImageStep, Declared, Downloaded, CreateStep;
    assert Stops(limits, images, attempt, usedBytes, k);
    forall n: nat | Stops(limits, images, attempt, usedBytes, n)
      ensures n == k
    {
      OnlyStop(limits, images, attempt, usedBytes, k, n);
    }
    NotAll(limits, images, attempt, usedBytes, k);
  }

  lemma NotAll(limits: Limits, images: seq<Descriptor>, attempt: nat -> Attempt, usedBytes: nat, k: nat)
    requires Stops(limits, images, attempt, usedBytes, k)
    ensures !AllStage(limits, images, attempt, usedBytes)
  {
    hide StepAt;
  }

  lemma NeverStopped(limits: Limits, images: seq<Descriptor>, attempt: nat -> Attempt, usedBytes: nat)
    requires StageTo(limits, images, attempt, usedBytes, |images|)
    ensures !CutShort(limits, images, attempt, usedBytes) && !StruckCleaning(limits, images, attempt, usedBytes)
  {
    hide StepAt;
  }

  lemma NothingOwned(files: map<nat, nat>)
    ensures OnDisk(files, files, []) && OwnedBytes([]) == 0
  {
  }

  // ----- the provider loop entered twice -----

  /** A host on which all goes well but for the provider's answer. */
  function Host(stream: Stream): Surroundings {
    Surroundings(true, 0, true, Fine, _ => Attempt(Fine, Fine, Fine, stream, Fine, Fine, Fine, Fine, Fine), Fine, true)
  }

  lemma HostDelivers(limits: Limits, images: seq<Descriptor>, read: nat -> Chunk, usedBytes: nat)
    requires limits.Valid() && |images| == 1 && images[0].supported && usedBytes + 1 <= limits.aggregateBytes
    requires read(0) == Bytes(1) && read(1) == Bytes(0)
    ensures !Escapes(limits, images, Host(Opened(1, read, Fine)), usedBytes)
    ensures AllStage(limits, images, Host(Opened(1, read, Fine)).attempt, usedBytes)
  {
    assert Received(read, 1) == Received(read, 0) + 1;
    assert Delivers(read, 1, 1);
    assert StepAt(limits, images, Host(Opened(1, read, Fine)).attempt, usedBytes, 0).Fine?;
  }

  /** The provider call itself is struck. */
  lemma HostEscapes(limits: Limits, images: seq<Descriptor>, usedBytes: nat)
    requires |images| == 1 && images[0].supported
    ensures Escapes(limits, images, Host(Struck), usedBytes)
  {
    var attempt := Host(Struck).attempt;
    assert StepAt(limits, images, attempt, usedBytes, 0).Kills?;
    assert Stops(limits, images, attempt, usedBytes, 0);
    NotAll(limits, images, attempt, usedBytes, 0);
  }

  /** A run of the store: the first entry is cut off and leaves no receipt, so the same request enters the provider loop
      again and is verified. */
  method EnterTwice() returns (store: ContainedOutputStore, receipt: Receipt)
    ensures fresh(store) && store.Valid()
    ensures store.entered == [Entry("request", true), Entry("request", false)]
    ensures store.records == map["request" := receipt] && receipt.state == Verified
  {
    hide Vouching, Accounting, AllSucceeded, AllListed, Keeps, AllStage, Escapes, Remembering;
    store := new ContainedOutputStore(Limits.Limits(4, 8, 16, 2));
    var remote := Remote("request", "receipt", true, [Descriptor("image", true)]);
    HostEscapes(store.limits, remote.images, 0);
    var first := store.Stage(remote, Host(Struck));
    var chunks := (i: nat) => if i == 0 then Bytes(1) else Bytes(0);
    HostDelivers(store.limits, remote.images, chunks, store.usedBytes);
    var second := store.Stage(remote, Host(Opened(1, chunks, Fine)));
    receipt := second.value;
  }
}
