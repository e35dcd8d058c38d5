/**
 * The process-wide state of the server and the `/upload` and
 * `/progress-stream` handlers that change it: `progressState`, `audioUrls`,
 * the progress emitter, and the files the handlers create and delete.
 */
module UploadServer {
  import opened Base
  import opened Stems
  import opened Decimal
  import opened ProgressParser
  import opened ProgressBus
  import opened Collector

  /** What multer hands the handler: the client's file name and where the upload was stored. */
  datatype UploadedFile = UploadedFile(originalName: string, path: string)

  /**
   * What the environment supplies to one upload: whether preparing the
   * workspace (mkdtemp, rename, mkdir) throws, the directory mkdtemp
   * returns, the chunks Demucs writes to stderr, the files it writes, its
   * exit code, and what `Date.now()` returns when each stem is visited
   * (indexed like `All`).
   */
  datatype Job = Job(
    setupFails: bool,
    tempDir: string,
    stderr: seq<string>,
    written: set<string>,
    exitCode: int,
    clock: seq<nat>)

  datatype StemLink = StemLink(name: string, url: string)

  datatype Response =
    | Status(code: nat, message: string)                               // res.status(code).send(message)
    | Completed(success: bool, message: string, stems: seq<StemLink>)  // res.json({...})

  function InputPath(job: Job, file: UploadedFile): string
  {
    job.tempDir + "/" + file.originalName
  }

  function OutputDir(job: Job): string
  {
    job.tempDir + "/output"
  }

  /** `baseName` in the close handler: the input's file name without its extension. */
  function BaseName(job: Job, file: UploadedFile): string
  {
    StripExtension(FileName(InputPath(job, file)))
  }

  /** The files after a successful setup and a Demucs run: the upload moved into the workspace, the output directory, Demucs's files. */
  function Workspace(disk: set<string>, file: UploadedFile, job: Job): set<string>
  {
    (disk - {file.path}) + {job.tempDir, InputPath(job, file), OutputDir(job)} + job.written
  }

  /** `fsp.rm(dir, { recursive: true, force: true })`: `dir` and everything under it go, nothing else. */
  function RemoveTree(disk: set<string>, dir: string): (r: set<string>)
    ensures r <= disk && dir !in r
    ensures forall p | p in disk :: p in r <==> p != dir && !(dir + "/" <= p)
  {
    set p | p in disk && p != dir && !(dir + "/" <= p)
  }

  /**
   * The `stems` array of the success response: `Object.keys(audioUrls).map(...)`,
   * one entry per key, in key order, naming the stem and giving its URL.
   */
  function Listing(order: seq<Stem>, urls: map<Stem, string>): (r: seq<StemLink>)
    requires forall s :: s in order ==> s in urls
    ensures |r| == |order|
    ensures forall k | 0 <= k < |r| :: r[k].name == Name(order[k]) && r[k].url == urls[order[k]]
  {
    seq(|order|, k requires 0 <= k < |order| => StemLink(Name(order[k]), urls[order[k]]))
  }

  /** The response names exactly the recorded stems, and each once when the keys do not repeat. */
  lemma ListingNames(order: seq<Stem>, urls: map<Stem, string>)
    requires forall s :: s in order ==> s in urls
    ensures var r := Listing(order, urls);
      forall s :: s in order <==> exists k | 0 <= k < |r| :: r[k].name == Name(s)
    ensures var r := Listing(order, urls);
      Distinct(order) ==> forall a, b | 0 <= a < b < |r| :: r[a].name != r[b].name
  {
    var r := Listing(order, urls);
    forall s ensures s in order <==> exists k | 0 <= k < |r| :: r[k].name == Name(s) {
      if s in order {
        var k :| 0 <= k < |order| && order[k] == s;
        assert r[k].name == Name(s);
      }
      forall k | 0 <= k < |r| && r[k].name == Name(s) ensures order[k] == s {
        NameInjective(order[k], s);
      }
    }
    forall a, b | 0 <= a < b < |r| ensures Distinct(order) ==> r[a].name != r[b].name {
      NameInjective(order[a], order[b]);
    }
  }

  /** The snapshots the stderr handler emits for `chunks`: one uniform snapshot per parsed percentage. */
  function Updates(chunks: seq<string>): seq<Snapshot>
    decreases |chunks|
  {
    if chunks == [] then
      []
    else
      Updates(chunks[..|chunks| - 1]) +
        match ParseChunk(chunks[|chunks| - 1])
        case Some(n) => [Uniform(n)]
        case None => []
  }

  /** `progressState` after the stderr handler has seen `chunks`, starting from `p`. */
  function AfterChunks(p: Snapshot, chunks: seq<string>): Snapshot
    decreases |chunks|
  {
    if chunks == [] then
      p
    else
      match ParseChunk(chunks[|chunks| - 1])
      case Some(n) => Uniform(n)
      case None => AfterChunks(p, chunks[..|chunks| - 1])
  }

  /**
   * The store always holds the last snapshot the stderr handler emitted
   * (the latest percentage, not the largest), or its starting value when
   * nothing was parsed.
   */
  lemma {:induction false} StoreIsLastUpdate(p: Snapshot, chunks: seq<string>)
    ensures var u := Updates(chunks);
      AfterChunks(p, chunks) == if u == [] then p else u[|u| - 1]
    decreases |chunks|
  {
    if chunks != [] {
      StoreIsLastUpdate(p, chunks[..|chunks| - 1]);
    }
  }

  /**
   * Two progress lines in a row: both are emitted, and the store keeps the
   * second percentage even when it is smaller than the first.
   */
  lemma LatestNotLargest(p: Snapshot, prefix: string, first: nat, second: nat)
    requires Contains(prefix, Marker)
    requires forall k | 0 <= k < |prefix| :: !IsDigit(prefix[k])
    ensures var chunks := [prefix + Render(first) + "%", prefix + Render(second) + "%"];
      && Updates(chunks) == [Uniform(first), Uniform(second)]
      && AfterChunks(p, chunks) == Uniform(second)
  {
    var c0, c1 := prefix + Render(first) + "%", prefix + Render(second) + "%";
    NotClamped(prefix, first, "");
    NotClamped(prefix, second, "");
    assert c0 + "" == c0 && c1 + "" == c1;
    var chunks := [c0, c1];
    assert chunks[..1] == [c0] && [c0][..0] == [];
    assert Updates([c0]) == [Uniform(first)];
  }

  /** Every stem of `found` at 100. */
  function Done(found: seq<Stem>): Snapshot
  {
    map s | s in found :: 100
  }

  /** The snapshots the collector emits: one per found stem, each with the stems found so far at 100. */
  function Marks(p: Snapshot, found: seq<Stem>): seq<Snapshot>
    decreases |found|
  {
    if found == [] then [] else Marks(p, found[..|found| - 1]) + [p + Done(found)]
  }

  /** The URLs the collector records for `found`. */
  function NewUrls(found: seq<Stem>, baseName: string, clock: seq<nat>): map<Stem, string>
    requires |clock| == |All|
  {
    map s | s in found :: Url(baseName, s, clock[Rank(s)])
  }

  /** The public copies the collector makes for `found`. */
  function NewCopies(found: seq<Stem>, baseName: string, clock: seq<nat>): set<string>
    requires |clock| == |All|
  {
    set s | s in found :: PublicName(baseName, s, clock[Rank(s)])
  }

  /**
   * A stem gets a URL, a public copy and progress 100 from the collector
   * exactly when Demucs left its file; other stems are untouched.
   */
  lemma CollectedIffPresent(disk: set<string>, outputDir: string, baseName: string, clock: seq<nat>)
    requires |clock| == |All|
    ensures var found := Found(All, disk, outputDir, baseName);
      forall s ::
        && (s in NewUrls(found, baseName, clock) <==> StemPath(outputDir, baseName, s) in disk)
        && (s in Done(found) <==> StemPath(outputDir, baseName, s) in disk)
        && (PublicName(baseName, s, clock[Rank(s)]) in NewCopies(found, baseName, clock) <==>
              StemPath(outputDir, baseName, s) in disk)
  {
    var found := Found(All, disk, outputDir, baseName);
    forall s ensures s in All {
      AllIsComplete(s);
    }
    forall s | PublicName(baseName, s, clock[Rank(s)]) in NewCopies(found, baseName, clock)
      ensures s in found
    {
      var w :| w in found && PublicName(baseName, w, clock[Rank(w)]) == PublicName(baseName, s, clock[Rank(s)]);
      PublicNameInjective(baseName, w, clock[Rank(w)], s, clock[Rank(s)]);
    }
  }

  /** Every path of a file inside `dir`, written `dir/rest`, lies under `dir`. */
  lemma UnderDir(dir: string, rest: string)
    ensures dir + "/" <= dir + "/" + rest
  {
    assert (dir + "/" + rest)[..|dir| + 1] == dir + "/";
  }

  /** A stem file Demucs writes lies under the workspace. */
  lemma StemPathUnder(dir: string, b: string, s: Stem)
    ensures dir + "/" <= StemPath(dir + "/output", b, s)
  {
    var rest := "output/htdemucs/" + b + "/" + Name(s) + ".wav";
    assert StemPath(dir + "/output", b, s) == dir + "/" + rest;
    UnderDir(dir, rest);
  }

  /**
   * After a failed run the workspace is gone: the temporary directory, the
   * moved upload, the output directory and every stem Demucs wrote there
   * are removed, while every other file that existed before the job is
   * kept.
   */
  lemma FailedJobLeavesNoWorkspace(disk0: set<string>, upload: UploadedFile, job: Job)
    ensures var r := RemoveTree(Workspace(disk0, upload, job), job.tempDir);
      && job.tempDir !in r && InputPath(job, upload) !in r && OutputDir(job) !in r
      && (forall b, s :: StemPath(OutputDir(job), b, s) !in r)
      && (forall p | p in disk0 && p != upload.path && p != job.tempDir && !(job.tempDir + "/" <= p) :: p in r)
  {
    var d := job.tempDir;
    var w := Workspace(disk0, upload, job);
    var r := RemoveTree(w, d);
    UnderDir(d, upload.originalName);
    UnderDir(d, "output");
    forall b, s ensures StemPath(OutputDir(job), b, s) !in r {
      StemPathUnder(d, b, s);
    }
    forall p | p in disk0 && p != upload.path && p != d && !(d + "/" <= p) ensures p in r {
      assert p in w;
    }
  }

  /** Visiting one more stem extends `Found` by that stem exactly when its file exists. */
  lemma FoundStep(k: nat, disk: set<string>, outputDir: string, baseName: string)
    requires k < |All|
    ensures Found(All[..k + 1], disk, outputDir, baseName) ==
              Found(All[..k], disk, outputDir, baseName)
                + if StemPath(outputDir, baseName, All[k]) in disk then [All[k]] else []
  {
    assert All[..k + 1][..k] == All[..k];
  }

  /** Sequence concatenation is associative. */
  lemma AppendAssoc<T>(a: seq<T>, b: seq<T>, c: seq<T>)
    ensures (a + b) + c == a + (b + c)
  {
  }

  /** Updating the right operand of a map union updates the union. */
  lemma UpdateUnion<K, V>(m: map<K, V>, n: map<K, V>, k: K, v: V)
    ensures (m + n)[k := v] == m + n[k := v]
  {
  }

  /** Collecting one more stem: the URL map gains that stem's URL. */
  lemma UrlsStep(before: seq<Stem>, stem: Stem, urls0: map<Stem, string>, baseName: string, clock: seq<nat>)
    requires |clock| == |All|
    ensures (urls0 + NewUrls(before, baseName, clock))[stem := Url(baseName, stem, clock[Rank(stem)])]
              == urls0 + NewUrls(before + [stem], baseName, clock)
  {
    var u := Url(baseName, stem, clock[Rank(stem)]);
    var after := before + [stem];
    assert forall s :: s in after <==> s in before || s == stem;
    assert NewUrls(after, baseName, clock) == NewUrls(before, baseName, clock)[stem := u];
    UpdateUnion(urls0, NewUrls(before, baseName, clock), stem, u);
  }

  /** Collecting one more stem: a new key goes to the end of the insertion order. */
  lemma OrderStep(before: seq<Stem>, stem: Stem, order0: seq<Stem>)
    ensures (var o := Record(order0, before); if stem in o then o else o + [stem]) == Record(order0, before + [stem])
  {
    var after := before + [stem];
    assert after[..|after| - 1] == before;
  }

  /** Collecting one more stem: that stem's progress goes to 100. */
  lemma ProgressStep(before: seq<Stem>, stem: Stem, p0: Snapshot)
    ensures (p0 + Done(before))[stem := 100] == p0 + Done(before + [stem])
  {
    var after := before + [stem];
    assert forall s :: s in after <==> s in before || s == stem;
  }

  /** Collecting one more stem: its public copy joins the stems directory. */
  lemma CopiesStep(before: seq<Stem>, stem: Stem, published0: set<string>, baseName: string, clock: seq<nat>)
    requires |clock| == |All|
    ensures published0 + NewCopies(before, baseName, clock) + {PublicName(baseName, stem, clock[Rank(stem)])}
              == published0 + NewCopies(before + [stem], baseName, clock)
  {
    var after := before + [stem];
    assert forall s :: s in after <==> s in before || s == stem;
  }

  /** Collecting one more stem: one more snapshot is emitted. */
  lemma MarksStep(before: seq<Stem>, stem: Stem, p0: Snapshot)
    ensures Marks(p0, before) + [p0 + Done(before + [stem])] == Marks(p0, before + [stem])
  {
    var after := before + [stem];
    assert after[..|after| - 1] == before;
  }

  /** Every URL is `/stems/` followed by the name of a file in the public stems directory. */
  predicate Served(urls: map<Stem, string>, published: set<string>)
  {
    forall s | s in urls :: PublicPrefix <= urls[s] && urls[s][|PublicPrefix|..] in published
  }

  /** Publishing a file and recording its URL keeps every URL served. */
  lemma PublishKeepsServed(urls: map<Stem, string>, published: set<string>, stem: Stem, name: string)
    requires Served(urls, published)
    ensures Served(urls[stem := PublicPrefix + name], published + {name})
  {
    assert (PublicPrefix + name)[|PublicPrefix|..] == name;
  }

  /** `audioUrls` with its key order: keys listed once each, every URL served. */
  predicate UrlTable(order: seq<Stem>, urls: map<Stem, string>, published: set<string>)
  {
    && Distinct(order)
    && (forall s :: s in urls <==> s in order)
    && Served(urls, published)
  }

  /** Recording a stem's URL for a published file keeps the table well formed. */
  lemma RecordKeepsTable(order: seq<Stem>, urls: map<Stem, string>, published: set<string>, stem: Stem, name: string)
    requires UrlTable(order, urls, published)
    ensures UrlTable(if stem in order then order else order + [stem], urls[stem := PublicPrefix + name], published + {name})
  {
    PublishKeepsServed(urls, published, stem, name);
  }

  class StemServer {
    const emitter: ProgressEmitter
    /** `progressState`. */
    var progress: Snapshot
    /** The keys of `audioUrls`, in the object's insertion order. */
    var urlOrder: seq<Stem>
    /** `audioUrls`. */
    var urls: map<Stem, string>
    /** The paths that exist on the file system. */
    var disk: set<string>
    /** The file names in the public stems directory served under `/stems/`. */
    var published: set<string>

    /**
     * The emitter keeps its delivery guarantee, `audioUrls` is a well-formed
     * table of published files, and the last snapshot emitted is the store.
     */
    ghost predicate Valid()
      reads this, emitter
    {
      && emitter.Valid()
      && UrlTable(urlOrder, urls, published)
      && (emitter.emitted != [] ==> progress == emitter.emitted[|emitter.emitted| - 1])
    }

    constructor (initialDisk: set<string>)
      ensures Valid() && fresh(emitter)
      ensures progress == map[] && urls == map[] && urlOrder == []
      ensures disk == initialDisk && published == {}
      ensures emitter.listeners == [] && emitter.emitted == []
    {
      emitter := new ProgressEmitter();
      progress, urls, urlOrder := map[], map[], [];
      disk, published := initialDisk, {};
    }

    /** `GET /progress-stream`: the new subscriber is sent the current `progressState` first. */
    method OpenProgressStream() returns (id: ListenerId)
      requires Valid()
      modifies emitter
      ensures Valid()
      ensures id !in old(emitter.received) && emitter.received == old(emitter.received)[id := [progress]]
      ensures emitter.emitted != [] ==> emitter.received[id] == [emitter.emitted[|emitter.emitted| - 1]]
      ensures emitter.listeners == old(emitter.listeners) + [id]
      ensures emitter.emitted == old(emitter.emitted)
    {
      id := emitter.Subscribe(progress);
    }

    /** The stream's `close` event: the subscriber's listener is removed. */
    method CloseProgressStream(id: ListenerId)
      requires Valid()
      modifies emitter
      ensures Valid()
      ensures emitter.listeners == Without(old(emitter.listeners), id) && id !in emitter.listeners
      ensures emitter.received == old(emitter.received) && emitter.emitted == old(emitter.emitted)
    {
      emitter.RemoveListener(id);
    }

    /** `stems.forEach(stem => progressState[stem] = v)`. */
    method SetAll(v: nat)
      modifies this`progress
      ensures progress == Uniform(v)
    {
      for k := 0 to |All|
        invariant progress == old(progress) + map s | s in All[..k] :: v
      {
        assert All[..k + 1] == All[..k] + [All[k]];
        progress := progress[All[k] := v];
      }
      assert All[..|All|] == All;
      OverwriteAll(old(progress), v);
    }

    /** Sets every stem to `v` and emits the snapshot. */
    method Broadcast(v: nat)
      requires Valid()
      modifies this, emitter
      ensures Valid()
      ensures emitter.sessions == old(emitter.sessions) && emitter.nextId == old(emitter.nextId)
      ensures emitter.Relayed()
      ensures progress == Uniform(v) && emitter.emitted == old(emitter.emitted) + [Uniform(v)]
      ensures urls == old(urls) && urlOrder == old(urlOrder) && disk == old(disk) && published == old(published)
      ensures emitter.listeners == old(emitter.listeners)
    {
      SetAll(v);
      emitter.Emit(progress);
    }

    /** The stderr `data` handler for one chunk. */
    method OnStderr(chunk: string)
      requires Valid()
      modifies this, emitter
      ensures Valid()
      ensures emitter.sessions == old(emitter.sessions) && emitter.nextId == old(emitter.nextId)
      ensures emitter.Relayed()
      ensures ParseChunk(chunk).None? ==>
                progress == old(progress) && emitter.emitted == old(emitter.emitted)
                && emitter.received == old(emitter.received)
      ensures ParseChunk(chunk).Some? ==>
                progress == Uniform(ParseChunk(chunk).value)
                && emitter.emitted == old(emitter.emitted) + [progress]
      ensures urls == old(urls) && urlOrder == old(urlOrder) && disk == old(disk) && published == old(published)
      ensures emitter.listeners == old(emitter.listeners)
    {
      match ParseChunk(chunk)
      case Some(n) =>
        Broadcast(n);
      case None =>
        emitter.RelayFollowsHistory();
    }

    /** Runs the stderr handler over the chunks, in arrival order. */
    method ConsumeStderr(chunks: seq<string>)
      requires Valid()
      modifies this, emitter
      ensures Valid()
      ensures emitter.sessions == old(emitter.sessions) && emitter.nextId == old(emitter.nextId)
      ensures emitter.Relayed()
      ensures progress == AfterChunks(old(progress), chunks)
      ensures emitter.emitted == old(emitter.emitted) + Updates(chunks)
      ensures urls == old(urls) && urlOrder == old(urlOrder) && disk == old(disk) && published == old(published)
      ensures emitter.listeners == old(emitter.listeners)
    {
      FeedChunks(chunks);
      emitter.RelayFollowsHistory();
    }

    /** The loop of `ConsumeStderr`: one call of the stderr handler per chunk. */
    method FeedChunks(chunks: seq<string>)
      requires Valid()
      modifies this, emitter
      ensures Valid()
      ensures emitter.sessions == old(emitter.sessions) && emitter.nextId == old(emitter.nextId)
      ensures progress == AfterChunks(old(progress), chunks)
      ensures emitter.emitted == old(emitter.emitted) + Updates(chunks)
      ensures urls == old(urls) && urlOrder == old(urlOrder) && disk == old(disk) && published == old(published)
      ensures emitter.listeners == old(emitter.listeners)
    {
      for k := 0 to |chunks|
        invariant Valid()
        invariant progress == AfterChunks(old(progress), chunks[..k])
        invariant emitter.emitted == old(emitter.emitted) + Updates(chunks[..k])
        invariant urls == old(urls) && urlOrder == old(urlOrder) && disk == old(disk) && published == old(published)
        invariant emitter.listeners == old(emitter.listeners)
        invariant emitter.sessions == old(emitter.sessions) && emitter.nextId == old(emitter.nextId)
      {
        assert chunks[..k + 1][..k] == chunks[..k];
        OnStderr(chunks[k]);
      }
      assert chunks[..|chunks|] == chunks;
    }

    /** One iteration of the close handler's loop over the stems. */
    method CollectStem(stem: Stem, outputDir: string, baseName: string, timestamp: nat)
      requires Valid()
      modifies this, emitter
      ensures Valid()
      ensures emitter.sessions == old(emitter.sessions) && emitter.nextId == old(emitter.nextId)
      ensures emitter.Relayed()
      ensures disk == old(disk) && emitter.listeners == old(emitter.listeners)
      ensures StemPath(outputDir, baseName, stem) in disk ==>
                && urls == old(urls)[stem := Url(baseName, stem, timestamp)]
                && urlOrder == (if stem in old(urlOrder) then old(urlOrder) else old(urlOrder) + [stem])
                && progress == old(progress)[stem := 100]
                && published == old(published) + {PublicName(baseName, stem, timestamp)}
                && emitter.emitted == old(emitter.emitted) + [progress]
      ensures StemPath(outputDir, baseName, stem) !in disk ==>
                && urls == old(urls) && urlOrder == old(urlOrder) && progress == old(progress)
                && published == old(published) && emitter.emitted == old(emitter.emitted)
    {
      if StemPath(outputDir, baseName, stem) in disk {
        var name := PublicName(baseName, stem, timestamp);
        Publish(stem, name);
        progress := progress[stem := 100];
        emitter.Emit(progress);
      } else {
        emitter.RelayFollowsHistory();
      }
    }

    /** The copy into the public directory and the `audioUrls` write for one found stem. */
    method Publish(stem: Stem, name: string)
      requires UrlTable(urlOrder, urls, published)
      modifies this`published, this`urls, this`urlOrder
      ensures UrlTable(urlOrder, urls, published)
      ensures published == old(published) + {name}
      ensures urls == old(urls)[stem := PublicPrefix + name]
      ensures urlOrder == if stem in old(urlOrder) then old(urlOrder) else old(urlOrder) + [stem]
    {
      RecordKeepsTable(urlOrder, urls, published, stem, name);
      published := published + {name};
      urls := urls[stem := PublicPrefix + name];
      if stem !in urlOrder {
        urlOrder := urlOrder + [stem];
      }
    }

    /**
     * The `for (const stem of stems)` loop of the close handler: for each
     * stem whose file Demucs left, copy it to the public directory, record
     * its URL, set its progress to 100 and emit; skip the others.
     */
    method CollectStems(outputDir: string, baseName: string, clock: seq<nat>)
      requires Valid() && |clock| == |All|
      modifies this, emitter
      ensures Valid()
      ensures emitter.sessions == old(emitter.sessions) && emitter.nextId == old(emitter.nextId)
      ensures emitter.Relayed()
      ensures var found := Found(All, disk, outputDir, baseName);
        && urls == old(urls) + NewUrls(found, baseName, clock)
        && urlOrder == Record(old(urlOrder), found)
        && progress == old(progress) + Done(found)
        && published == old(published) + NewCopies(found, baseName, clock)
        && emitter.emitted == old(emitter.emitted) + Marks(old(progress), found)
      ensures disk == old(disk) && emitter.listeners == old(emitter.listeners)
    {
      ghost var found: seq<Stem> := [];
      for k := 0 to |All|
        invariant Valid()
        invariant disk == old(disk) && emitter.listeners == old(emitter.listeners)
        invariant found == Found(All[..k], disk, outputDir, baseName)
        invariant urls == old(urls) + NewUrls(found, baseName, clock)
        invariant urlOrder == Record(old(urlOrder), found)
        invariant progress == old(progress) + Done(found)
        invariant published == old(published) + NewCopies(found, baseName, clock)
        invariant emitter.emitted == old(emitter.emitted) + Marks(old(progress), found)
        invariant emitter.sessions == old(emitter.sessions) && emitter.nextId == old(emitter.nextId)
      {
        var stem := All[k];
        FoundStep(k, disk, outputDir, baseName);
        ghost var sent := emitter.emitted;
        CollectStem(stem, outputDir, baseName, clock[Rank(stem)]);
        if StemPath(outputDir, baseName, stem) in disk {
          UrlsStep(found, stem, old(urls), baseName, clock);
          OrderStep(found, stem, old(urlOrder));
          ProgressStep(found, stem, old(progress));
          CopiesStep(found, stem, old(published), baseName, clock);
          MarksStep(found, stem, old(progress));
          assert progress == old(progress) + Done(found + [stem]);
          assert emitter.emitted == sent + [progress];
          AppendAssoc(old(emitter.emitted), Marks(old(progress), found), [progress]);
          found := found + [stem];
        }
      }
      assert All[..|All|] == All;
      emitter.RelayFollowsHistory();
    }

    /**
     * The close handler. A non-zero exit code removes the workspace and
     * answers 500; exit code 0 collects the stems, sets every stem to 100,
     * emits, and answers with every key of `audioUrls`.
     */
    method OnClose(exitCode: int, tempDir: string, outputDir: string, baseName: string, clock: seq<nat>)
      returns (resp: Response)
      requires Valid() && |clock| == |All|
      modifies this, emitter
      ensures Valid()
      ensures emitter.sessions == old(emitter.sessions) && emitter.nextId == old(emitter.nextId)
      ensures emitter.Relayed()
      ensures emitter.listeners == old(emitter.listeners)
      ensures exitCode != 0 ==>
                && resp == Status(500, "Error processing audio file.")
                && disk == RemoveTree(old(disk), tempDir)
                && progress == old(progress) && emitter.emitted == old(emitter.emitted)
                && emitter.received == old(emitter.received)
                && urls == old(urls) && urlOrder == old(urlOrder) && published == old(published)
      ensures exitCode == 0 ==>
                var found := Found(All, old(disk), outputDir, baseName);
                && urls == old(urls) + NewUrls(found, baseName, clock)
                && urlOrder == Record(old(urlOrder), found)
                && published == old(published) + NewCopies(found, baseName, clock)
                && progress == Uniform(100) && disk == old(disk)
                && emitter.emitted == old(emitter.emitted) + Marks(old(progress), found) + [Uniform(100)]
                && resp == Completed(true, "Processing complete", Listing(urlOrder, urls))
    {
      if exitCode != 0 {
        disk := RemoveTree(disk, tempDir);
        resp := Status(500, "Error processing audio file.");
        emitter.RelayFollowsHistory();
        return;
      }
      CollectStems(outputDir, baseName, clock);
      Broadcast(100);
      resp := Completed(true, "Processing complete", Listing(urlOrder, urls));
      emitter.RelayFollowsHistory();
    }

    /**
     * `POST /upload`: resets and emits the progress, and answers 400 when no
     * file came with the request; otherwise runs the job.
     */
    method HandleUpload(file: Option<UploadedFile>, job: Job) returns (resp: Response)
      requires Valid() && |job.clock| == |All|
      modifies this, emitter
      ensures Valid()
      ensures emitter.sessions == old(emitter.sessions) && emitter.nextId == old(emitter.nextId)
      ensures emitter.Relayed()
      ensures emitter.listeners == old(emitter.listeners)
      ensures file.None? ==>
                && resp == Status(400, "No file uploaded.")
                && progress == Uniform(0) && emitter.emitted == old(emitter.emitted) + [Uniform(0)]
                && disk == old(disk)
                && urls == old(urls) && urlOrder == old(urlOrder) && published == old(published)
      ensures file.Some? ==>
                JobEffect(file.value, job, old(disk), old(urlOrder), old(urls), old(published), old(emitter.emitted) + [Uniform(0)], resp)
    {
      Broadcast(0);
      if file.None? {
        resp := Status(400, "No file uploaded.");
      } else {
        resp := RunJob(file.value, job);
      }
      emitter.RelayFollowsHistory();
    }

    /**
     * What a job with an uploaded file does, given the state after the first
     * reset: a setup failure unlinks the upload and answers 500; otherwise
     * the progress is reset and emitted again, Demucs runs, and the close
     * handler decides on its exit code.
     */
    ghost predicate JobEffect(
      upload: UploadedFile, job: Job, disk0: set<string>, order0: seq<Stem>,
      urls0: map<Stem, string>, published0: set<string>, emitted0: seq<Snapshot>, resp: Response)
      reads this, emitter
      requires |job.clock| == |All|
    {
      if job.setupFails then
        && resp == Status(500, "Internal server error.")
        && progress == Uniform(0) && emitter.emitted == emitted0
        && disk == disk0 - {upload.path}
        && urls == urls0 && urlOrder == order0 && published == published0
      else if job.exitCode != 0 then
        && resp == Status(500, "Error processing audio file.")
        && progress == AfterChunks(Uniform(0), job.stderr)
        && emitter.emitted == emitted0 + [Uniform(0)] + Updates(job.stderr)
        && disk == RemoveTree(Workspace(disk0, upload, job), job.tempDir)
        && urls == urls0 && urlOrder == order0 && published == published0
      else
        var baseName := BaseName(job, upload);
        var found := Found(All, Workspace(disk0, upload, job), OutputDir(job), baseName);
        && (forall s :: s in urlOrder ==> s in urls)
        && resp == Completed(true, "Processing complete", Listing(urlOrder, urls))
        && progress == Uniform(100)
        && emitter.emitted == emitted0 + [Uniform(0)] + Updates(job.stderr)
                              + Marks(AfterChunks(Uniform(0), job.stderr), found) + [Uniform(100)]
        && urls == urls0 + NewUrls(found, baseName, job.clock)
        && urlOrder == Record(order0, found)
        && published == published0 + NewCopies(found, baseName, job.clock)
        && disk == Workspace(disk0, upload, job)
    }

    /** The handler after the file check: setup, Demucs, close handler. */
    method RunJob(upload: UploadedFile, job: Job) returns (resp: Response)
      requires Valid() && |job.clock| == |All| && progress == Uniform(0)
      modifies this, emitter
      ensures Valid()
      ensures emitter.sessions == old(emitter.sessions) && emitter.nextId == old(emitter.nextId)
      ensures emitter.Relayed()
      ensures emitter.listeners == old(emitter.listeners)
      ensures JobEffect(upload, job, old(disk), old(urlOrder), old(urls), old(published), old(emitter.emitted), resp)
    {
      if job.setupFails {
        disk := disk - {upload.path};
        emitter.RelayFollowsHistory();
        resp := Status(500, "Internal server error.");
      } else {
        resp := Separate(upload, job);
      }
    }

    /**
     * After a successful setup: the upload is moved into the new workspace,
     * the progress is reset and emitted, Demucs runs, and the close handler
     * acts on its exit code.
     */
    method Separate(upload: UploadedFile, job: Job) returns (resp: Response)
      requires Valid() && |job.clock| == |All| && !job.setupFails
      modifies this, emitter
      ensures Valid()
      ensures emitter.sessions == old(emitter.sessions) && emitter.nextId == old(emitter.nextId)
      ensures emitter.Relayed()
      ensures emitter.listeners == old(emitter.listeners)
      ensures JobEffect(upload, job, old(disk), old(urlOrder), old(urls), old(published), old(emitter.emitted), resp)
    {
      Prepare(upload, job);
      resp := OnClose(job.exitCode, job.tempDir, OutputDir(job), BaseName(job, upload), job.clock);
      emitter.RelayFollowsHistory();
    }

    /**
     * From the workspace setup until Demucs exits: the upload is moved into
     * the new workspace, the progress is reset and emitted, the stderr
     * handler runs over every chunk, and Demucs leaves its files.
     */
    method Prepare(upload: UploadedFile, job: Job)
      requires Valid()
      modifies this, emitter
      ensures Valid()
      ensures emitter.sessions == old(emitter.sessions) && emitter.nextId == old(emitter.nextId)
      ensures emitter.Relayed()
      ensures emitter.listeners == old(emitter.listeners)
      ensures disk == Workspace(old(disk), upload, job)
      ensures progress == AfterChunks(Uniform(0), job.stderr)
      ensures emitter.emitted == old(emitter.emitted) + [Uniform(0)] + Updates(job.stderr)
      ensures urls == old(urls) && urlOrder == old(urlOrder) && published == old(published)
    {
      disk := (disk - {upload.path}) + {job.tempDir, InputPath(job, upload), OutputDir(job)};
      Broadcast(0);
      ConsumeStderr(job.stderr);
      disk := disk + job.written;
      emitter.RelayFollowsHistory();
    }
  }
}
