/**
 * The MERGE daily downloader: one queue entry per day of the period, file
 * names `MERGE_CPTEC_YYYYMMDD.grib2` (the date in the basic calendar-date
 * format of ISO 8601:2004, section 4.1.2.2), the URL
 * `{url_base}/DAILY/{year}/{month}/{file name}`, a file written only on a
 * 200 answer, and `task_done` once per dequeued day.
 *
 * The worker threads are drained one after the other; the HTTP answers are
 * a function from URL to an optional response, None standing for a
 * request that raised.
 */
module Merge {
  import opened Wrappers
  import opened Text
  import opened Calendar

  /** `config.url_base` of the MERGE configuration. */
  const UrlBase := "http://ftp.cptec.inpe.br/modelos/tempo/MERGE/GPM"

  /** `config.threads` of the MERGE configuration. */
  const Threads := 20

  const Prefix := "MERGE_CPTEC_"
  const Suffix := ".grib2"

  /** `f"MERGE_CPTEC_{data_fmt}.grib2"` with `data_fmt = data.format("%Y%m%d")`. */
  function FileName(d: Date): string
  {
    Prefix + IsoBasic(d) + Suffix
  }

  /** Reads the date back from a MERGE file name. */
  function ParseFileName(name: string): Option<Date>
  {
    if |name| < |Prefix| + |Suffix| || name[..|Prefix|] != Prefix || name[|name| - |Suffix|..] != Suffix then None
    else ParseIsoBasic(name[|Prefix|..|name| - |Suffix|])
  }

  lemma FileNameRoundTrip(d: Date)
    ensures ParseFileName(FileName(d)) == Some(d)
  {
    var name := FileName(d);
    IsoBasicRoundTrip(d);
    assert name[..|Prefix|] == Prefix;
    assert name[|name| - |Suffix|..] == Suffix;
    assert name[|Prefix|..|name| - |Suffix|] == IsoBasic(d);
  }

  /** Distinct days get distinct files, so no download overwrites another day's. */
  lemma FileNameInjective(a: Date, b: Date)
    ensures FileName(a) == FileName(b) ==> a == b
  {
    FileNameRoundTrip(a);
    FileNameRoundTrip(b);
  }

  /** `str(data.year)` and `str(data.month).zfill(2)`, the folders of the day. */
  function Folders(d: Date): string
  {
    Decimal(d.year) + "/" + Padded(d.month, 2)
  }

  /** `f"{config.url_base}/DAILY/{ano}/{mes}/{nome_arquivo}"`. */
  function Url(base: string, d: Date): string
  {
    base + "/DAILY/" + Folders(d) + "/" + FileName(d)
  }

  lemma NoSlashInFileName(d: Date)
    ensures '/' !in FileName(d)
  {
    NoSeparatorInDigits(IsoBasic(d), '/');
    assert '/' !in Prefix && '/' !in Suffix;
  }

  /**
   * The path after `{url_base}/DAILY/` is three segments: the year in
   * decimal, the month in two digits, and the file name of the day.
   */
  lemma UrlSegments(base: string, d: Date)
    ensures Url(base, d)[..|base| + 7] == base + "/DAILY/"
    ensures Split(Url(base, d)[|base| + 7..], '/') == [Decimal(d.year), Padded(d.month, 2), FileName(d)]
    ensures ValueOf(Decimal(d.year)) == d.year
    ensures |Padded(d.month, 2)| == 2 && ValueOf(Padded(d.month, 2)) == d.month
    ensures ParseFileName(FileName(d)) == Some(d)
  {
    var y, m, f := Decimal(d.year), Padded(d.month, 2), FileName(d);
    var rest := y + "/" + m + "/" + f;
    assert Url(base, d) == (base + "/DAILY/") + rest;
    NoSlashInFileName(d);
    PathSplit(y, m, f);
    ValueOfDecimal(d.year);
    ValueOfPadded(d.month, 2);
    assert Pow10(2) == 100;
    PaddedWidth(d.month, 2);
    FileNameRoundTrip(d);
  }

  lemma PathSplit(y: string, m: string, f: string)
    requires AllDigits(y) && AllDigits(m) && '/' !in f
    ensures Split(y + "/" + m + "/" + f, '/') == [y, m, f]
  {
    NoSeparatorInDigits(y, '/');
    NoSeparatorInDigits(m, '/');
    assert Join([f], '/') == f;
    assert Join([m, f], '/') == m + "/" + f;
    assert y + "/" + m + "/" + f == Join([y, m, f], '/');
    SplitJoin([y, m, f], '/');
  }

  // ---------------------------------------------------------------------
  // Downloads
  // ---------------------------------------------------------------------

  /** The answer of `requests.get`. */
  datatype Response = Response(status: int, content: seq<bv8>)

  /** Whether the download of day `d` writes its file: the request answered, with status 200. */
  predicate Fetched(base: string, d: Date, fetch: string -> Option<Response>)
  {
    fetch(Url(base, d)).Some? && fetch(Url(base, d)).value.status == 200
  }

  /** The directory after the download of day `d`. */
  function AfterTask(files: map<string, seq<bv8>>, base: string, d: Date, fetch: string -> Option<Response>)
    : map<string, seq<bv8>>
  {
    if Fetched(base, d, fetch) then files[FileName(d) := fetch(Url(base, d)).value.content] else files
  }

  /** The directory after the downloads of `ds`, in order. */
  function AfterTasks(files: map<string, seq<bv8>>, base: string, ds: seq<Date>, fetch: string -> Option<Response>)
    : map<string, seq<bv8>>
  {
    if ds == [] then files
    else AfterTask(AfterTasks(files, base, ds[..|ds| - 1], fetch), base, ds[|ds| - 1], fetch)
  }

  /** The download directory `dir_tmp`: the files it holds, by name. */
  class Directory {
    var files: map<string, seq<bv8>>

    constructor(files0: map<string, seq<bv8>>)
      ensures files == files0
    {
      files := files0;
    }

    /** `open(arquivo_grib, "wb")` and `f.write(req.content)`. */
    method Write(name: string, content: seq<bv8>)
      modifies this
      ensures files == old(files)[name := content]
    {
      files := files[name := content];
    }
  }

  /** `queue.Queue`: the pending items, in order, and the count of tasks not yet marked done. */
  class WorkQueue {
    var items: seq<Date>
    var unfinished: nat

    constructor()
      ensures items == [] && unfinished == 0
    {
      items := [];
      unfinished := 0;
    }

    method Put(d: Date)
      modifies this
      ensures items == old(items) + [d] && unfinished == old(unfinished) + 1
    {
      items := items + [d];
      unfinished := unfinished + 1;
    }

    /** `q.get()` on a queue holding items. */
    method Get() returns (d: Date)
      requires items != []
      modifies this
      ensures d == old(items)[0] && items == old(items)[1..] && unfinished == old(unfinished)
    {
      d := items[0];
      items := items[1..];
    }

    /** `q.task_done()`: more calls than items put raise ValueError. */
    method TaskDone()
      requires unfinished > 0
      modifies this
      ensures items == old(items) && unfinished == old(unfinished) - 1
    {
      unfinished := unfinished - 1;
    }
  }

  /**
   * One turn of the worker loop: take a day, request its file, write it on
   * status 200, and call `task_done` whatever happened; an exception of
   * the request is caught and only logged.
   */
  method Task(fila: WorkQueue, dir: Directory, base: string, fetch: string -> Option<Response>)
    returns (data: Date)
    requires fila.items != [] && fila.unfinished > 0
    modifies fila, dir
    ensures data == old(fila.items)[0] && fila.items == old(fila.items)[1..]
    ensures fila.unfinished == old(fila.unfinished) - 1
    ensures dir.files == AfterTask(old(dir.files), base, data, fetch)
  {
    data := fila.Get();
    var nome_arquivo := FileName(data);
    var url := Url(base, data);
    var req := fetch(url);
    if req.Some? && req.value.status == 200 {
      dir.Write(nome_arquivo, req.value.content);
    }
    fila.TaskDone();
  }

  /** The workers, run one after the other, until the queue is empty. */
  method Drain(fila: WorkQueue, dir: Directory, base: string, fetch: string -> Option<Response>)
    requires fila.unfinished == |fila.items|
    modifies fila, dir
    ensures fila.items == [] && fila.unfinished == 0
    ensures dir.files == AfterTasks(old(dir.files), base, old(fila.items), fetch)
  {
    ghost var datas := fila.items;
    ghost var i := 0;
    while fila.items != []
      invariant 0 <= i <= |datas| && fila.items == datas[i..]
      invariant fila.unfinished == |fila.items|
      invariant dir.files == AfterTasks(old(dir.files), base, datas[..i], fetch)
      decreases |fila.items|
    {
      var data := Task(fila, dir, base, fetch);
      assert datas[..i + 1][..i] == datas[..i];
      i := i + 1;
    }
    assert datas[..i] == datas;
  }

  /** `zip(range(config.threads), datas)`: how many workers are started. */
  function WorkerCount(threads: int, days: nat): (w: nat)
    ensures w <= days && (threads >= 0 ==> w <= threads)
    ensures threads > 0 ==> w == days || w == threads
    ensures threads <= 0 ==> w == 0
  {
    if threads <= 0 then 0 else if threads < days then threads else days
  }

  /** The loop that starts the workers, one per pair of the zip. */
  method StartWorkers(threads: int, datas: seq<Date>) returns (workers: nat)
    ensures workers == WorkerCount(threads, |datas|)
  {
    workers := 0;
    while workers < threads && workers < |datas|
      invariant workers <= |datas| && (threads >= 0 ==> workers <= threads)
      invariant threads <= 0 ==> workers == 0
    {
      workers := workers + 1;
    }
  }

  /**
   * `baixar_dados_diarios`: one queue entry per day of the period, the
   * workers started, and `fila.join()`. The join returns once every task is
   * marked done; with days to fetch and no worker started it never
   * returns, which `joined` reports as false.
   */
  method BaixarDadosDiarios(data_inicial: Date, data_final: Date, threads: int, base: string,
                            fetch: string -> Option<Response>, dir: Directory)
    returns (joined: bool)
    modifies dir
    ensures joined <==> (Period(data_inicial, data_final) == [] || WorkerCount(threads, |Period(data_inicial, data_final)|) > 0)
    ensures joined ==> dir.files == AfterTasks(old(dir.files), base, Period(data_inicial, data_final), fetch)
    ensures !joined ==> dir.files == old(dir.files)
  {
    var datas := Period(data_inicial, data_final);
    var fila := new WorkQueue();
    var i := 0;
    while i < |datas|
      invariant 0 <= i <= |datas|
      invariant fila.items == datas[..i] && fila.unfinished == i
      invariant dir.files == old(dir.files)
    {
      fila.Put(datas[i]);
      assert datas[..i + 1] == datas[..i] + [datas[i]];
      i := i + 1;
    }
    assert datas[..i] == datas;
    var workers := StartWorkers(threads, datas);
    if workers > 0 {
      Drain(fila, dir, base, fetch);
    }
    joined := fila.unfinished == 0;
  }

  // ---------------------------------------------------------------------
  // What a run leaves in the directory
  // ---------------------------------------------------------------------

  predicate Distinct(ds: seq<Date>)
  {
    forall i, j | 0 <= i < j < |ds| :: ds[i] != ds[j]
  }

  /** The days of a period are distinct. */
  lemma PeriodDistinct(a: Date, b: Date)
    ensures Distinct(Period(a, b))
  {
    PeriodDays(a, b);
  }

  /** A run adds the files its tasks write to those already there, replacing any of the same name. */
  lemma {:induction false} AfterTasksAdds(files: map<string, seq<bv8>>, base: string, ds: seq<Date>,
                                          fetch: string -> Option<Response>)
    ensures AfterTasks(files, base, ds, fetch) == files + AfterTasks(map[], base, ds, fetch)
    decreases |ds|
  {
    if ds != [] {
      AfterTasksAdds(files, base, ds[..|ds| - 1], fetch);
    }
  }

  /** Every file a run writes is the file of one of its days, answered with status 200. */
  lemma {:induction false} WrittenNames(base: string, ds: seq<Date>, fetch: string -> Option<Response>)
    ensures forall name | name in AfterTasks(map[], base, ds, fetch) ::
      exists i | 0 <= i < |ds| :: name == FileName(ds[i]) && Fetched(base, ds[i], fetch)
    decreases |ds|
  {
    if ds != [] {
      var init, last := ds[..|ds| - 1], ds[|ds| - 1];
      WrittenNames(base, init, fetch);
      var before := AfterTasks(map[], base, init, fetch);
      forall name | name in AfterTasks(map[], base, ds, fetch)
        ensures exists i | 0 <= i < |ds| :: name == FileName(ds[i]) && Fetched(base, ds[i], fetch)
      {
        if name in before {
          var i :| 0 <= i < |init| && name == FileName(init[i]) && Fetched(base, init[i], fetch);
          assert ds[i] == init[i];
        } else {
          assert name == FileName(last) && Fetched(base, last, fetch);
        }
      }
    }
  }

  /** Over distinct days, each day answered with status 200 leaves its file with its own content. */
  lemma {:induction false} WrittenContents(base: string, ds: seq<Date>, fetch: string -> Option<Response>)
    requires Distinct(ds)
    ensures forall i | 0 <= i < |ds| && Fetched(base, ds[i], fetch) ::
      FileName(ds[i]) in AfterTasks(map[], base, ds, fetch) &&
      AfterTasks(map[], base, ds, fetch)[FileName(ds[i])] == fetch(Url(base, ds[i])).value.content
    decreases |ds|
  {
    if ds != [] {
      var init, last := ds[..|ds| - 1], ds[|ds| - 1];
      assert Distinct(init);
      WrittenContents(base, init, fetch);
      forall i | 0 <= i < |ds| - 1 ensures FileName(ds[i]) != FileName(last) {
        FileNameInjective(ds[i], last);
      }
      forall i | 0 <= i < |ds| - 1 && Fetched(base, ds[i], fetch)
        ensures FileName(ds[i]) in AfterTasks(map[], base, ds, fetch) &&
          AfterTasks(map[], base, ds, fetch)[FileName(ds[i])] == fetch(Url(base, ds[i])).value.content
      {
        assert init[i] == ds[i];
      }
    }
  }

  /**
   * Over distinct days, the files a run writes are exactly those of the
   * days answered with status 200, each holding its own day's content; a
   * day without such an answer writes nothing.
   */
  lemma Written(base: string, ds: seq<Date>, fetch: string -> Option<Response>)
    requires Distinct(ds)
    ensures forall i | 0 <= i < |ds| && Fetched(base, ds[i], fetch) ::
      FileName(ds[i]) in AfterTasks(map[], base, ds, fetch) &&
      AfterTasks(map[], base, ds, fetch)[FileName(ds[i])] == fetch(Url(base, ds[i])).value.content
    ensures forall i | 0 <= i < |ds| && !Fetched(base, ds[i], fetch) ::
      FileName(ds[i]) !in AfterTasks(map[], base, ds, fetch)
    ensures forall name | name in AfterTasks(map[], base, ds, fetch) ::
      exists i | 0 <= i < |ds| :: name == FileName(ds[i]) && Fetched(base, ds[i], fetch)
  {
    WrittenContents(base, ds, fetch);
    WrittenNames(base, ds, fetch);
    forall i | 0 <= i < |ds| && !Fetched(base, ds[i], fetch)
      ensures FileName(ds[i]) !in AfterTasks(map[], base, ds, fetch)
    {
      if FileName(ds[i]) in AfterTasks(map[], base, ds, fetch) {
        var j :| 0 <= j < |ds| && FileName(ds[i]) == FileName(ds[j]) && Fetched(base, ds[j], fetch);
        FileNameInjective(ds[i], ds[j]);
      }
    }
  }

  /**
   * A download run over a period leaves every other file as it was, and
   * holds, for each day of the period answered with status 200, that day's
   * file with the answer's content.
   */
  lemma DownloadedPeriod(files: map<string, seq<bv8>>, a: Date, b: Date, base: string,
                         fetch: string -> Option<Response>)
    ensures forall d | d in Period(a, b) && Fetched(base, d, fetch) ::
      FileName(d) in AfterTasks(files, base, Period(a, b), fetch) &&
      AfterTasks(files, base, Period(a, b), fetch)[FileName(d)] == fetch(Url(base, d)).value.content
    ensures forall name | name !in AfterTasks(map[], base, Period(a, b), fetch) ::
      (name in files <==> name in AfterTasks(files, base, Period(a, b), fetch)) &&
      (name in files ==> AfterTasks(files, base, Period(a, b), fetch)[name] == files[name])
    ensures forall name | name in AfterTasks(map[], base, Period(a, b), fetch) ::
      exists d | d in Period(a, b) :: name == FileName(d) && Fetched(base, d, fetch)
  {
    var ds := Period(a, b);
    PeriodDistinct(a, b);
    AfterTasksAdds(files, base, ds, fetch);
    Written(base, ds, fetch);
    forall d | d in ds && Fetched(base, d, fetch)
      ensures FileName(d) in AfterTasks(files, base, ds, fetch) &&
        AfterTasks(files, base, ds, fetch)[FileName(d)] == fetch(Url(base, d)).value.content
    {
      var i :| 0 <= i < |ds| && ds[i] == d;
    }
  }

  /**
   * Without `dir_dados`, the chuvisco `obter_chuva_no_contorno` calls
   * `self.obter_dados_diarios`, which the class never defines; with it, the
   * grib files of that directory are read.
   */
  function GribFiles(dir_dados: Option<map<string, seq<bv8>>>): (r: Result<set<string>, Error>)
    ensures dir_dados.None? ==> r == Failure(UndefinedName("obter_dados_diarios"))
    ensures dir_dados.Some? ==> r.Success? && forall name :: name in r.value <==>
      name in dir_dados.value && |name| >= |Suffix| && name[|name| - |Suffix|..] == Suffix
  {
    if dir_dados.None? then Failure(UndefinedName("obter_dados_diarios"))
    else Success(set name | name in dir_dados.value && |name| >= |Suffix| && name[|name| - |Suffix|..] == Suffix)
  }
}
