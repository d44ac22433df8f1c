/**
 The tape recorder's writer: one CSV file per symbol and day, buffered appends, rotation to a compressed file
 when the UTC day changes.  `Disk` is the file system as far as the writer touches it.  The methods of the class
 are proved against transitions of `Snapshot`, and what the recorder promises is proved about those.
 */
module TapeWriter {
  datatype Row = Row(tsMs: string, recvTsMs: int, symbol: string, side: string, price: string, size: string,
                     tradeId: string)

  datatype Line = Header | Data(row: Row)

  /** One day of one symbol: the stem of a `.csv` and a `.csv.gz` path. */
  datatype Key = Key(symbol: string, date: string)

  type Files = map<Key, seq<Line>>

  type Buffers = map<string, seq<Line>>

  /** The disk, the current date, the unwritten lines of each open file, and the rows behind them. */
  datatype Snapshot = Snapshot(csv: Files, gz: Files, date: string, buffers: Buffers, unflushed: seq<Row>, buf: nat)

  // ----- Transitions -----

  /** The plain files once every buffer but those of `todo` has been appended. */
  ghost function Flushed(csv: Files, date: string, buffers: Buffers, todo: set<string>): (m: Files)
    ensures m.Keys == csv.Keys
  {
    map k | k in csv ::
      if k.date == date && k.symbol in buffers && k.symbol !in todo then csv[k] + buffers[k.symbol] else csv[k]
  }

  ghost function AfterFlush(v: Snapshot): Snapshot {
    v.(csv := Flushed(v.csv, v.date, v.buffers, {}), buffers := map s | s in v.buffers :: [], unflushed := [], buf := 0)
  }

  /** Closing leaves the counter of buffered rows as it is. */
  ghost function AfterClose(v: Snapshot): Snapshot {
    v.(csv := Flushed(v.csv, v.date, v.buffers, {}), buffers := map[], unflushed := [])
  }

  /** The files of `date` that are compressed once all symbols but `todo` have been visited. */
  ghost predicate Moves(csv: Files, gz: Files, date: string, todo: set<string>, k: Key) {
    k in csv && k.date == date && k.symbol !in todo && k !in gz
  }

  ghost function RotatedCsv(csv: Files, gz: Files, date: string, todo: set<string>): Files {
    map k | k in csv && !Moves(csv, gz, date, todo, k) :: csv[k]
  }

  ghost function RotatedGz(csv: Files, gz: Files, date: string, todo: set<string>): Files {
    map k | k in gz.Keys + csv.Keys && (k in gz || Moves(csv, gz, date, todo, k)) :: if k in gz then gz[k] else csv[k]
  }

  /** A change of date closes, compresses the day that ended, and drops the expired compressed files. */
  ghost function AfterRotate(v: Snapshot, today: string, expired: set<Key>): Snapshot {
    if today == v.date then v
    else
      var c := AfterClose(v);
      Snapshot(RotatedCsv(c.csv, c.gz, v.date, {}), RotatedGz(c.csv, c.gz, v.date, {}) - expired,
               today, map[], [], 0)
  }

  ghost function AfterOpen(v: Snapshot, symbol: string): Snapshot {
    var k := Key(symbol, v.date);
    if symbol in v.buffers then v
    else v.(csv := if k in v.csv then v.csv else v.csv[k := []],
            buffers := v.buffers[symbol := if k in v.csv then [] else [Header]])
  }

  ghost function AfterAppend(v: Snapshot, row: Row): Snapshot
    requires row.symbol in v.buffers
  {
    v.(buffers := v.buffers[row.symbol := v.buffers[row.symbol] + [Data(row)]], unflushed := v.unflushed + [row])
  }

  ghost function AfterWrite(v: Snapshot, today: string, expired: set<Key>, row: Row, flushEvery: int): Snapshot {
    var a := AfterAppend(AfterOpen(AfterRotate(v, today, expired), row.symbol), row);
    var b := a.(buf := a.buf + 1);
    if b.buf >= flushEvery then AfterFlush(b) else b
  }

  /** A gap marker is not counted, but flushed at once. */
  ghost function AfterGap(v: Snapshot, today: string, expired: set<Key>, row: Row): Snapshot {
    AfterFlush(AfterAppend(AfterOpen(AfterRotate(v, today, expired), row.symbol), row))
  }

  // ----- The classes -----

  class Disk {
    var csv: Files
    var gz: Files
  }

  /** A file opened for appending; `pending` has not reached the disk yet. */
  class OpenFile {
    const key: Key
    var pending: seq<Line>

    constructor (k: Key, disk: Disk)
      modifies disk`csv
      ensures key == k && pending == []
      ensures disk.csv == if k in old(disk.csv) then old(disk.csv) else old(disk.csv)[k := []]
    {
      key := k;
      pending := [];
      new;
      if k !in disk.csv {
        disk.csv := disk.csv[k := []];
      }
    }

    method WriteRow(line: Line)
      modifies `pending
      ensures pending == old(pending) + [line]
    {
      pending := pending + [line];
    }

    method Flush(disk: Disk)
      requires key in disk.csv
      modifies `pending, disk`csv
      ensures pending == []
      ensures disk.csv == old(disk.csv)[key := old(disk.csv[key] + pending)]
    {
      disk.csv := disk.csv[key := disk.csv[key] + pending];
      pending := [];
    }
  }

  lemma NothingFlushed(csv: Files, date: string, buffers: Buffers)
    ensures Flushed(csv, date, buffers, buffers.Keys) == csv
  {
  }

  lemma FlushedStep(csv: Files, date: string, buffers: Buffers, todo: set<string>, s: string)
    requires s in todo && s in buffers && Key(s, date) in csv
    ensures var now := Flushed(csv, date, buffers, todo);
            && Key(s, date) in now
            && now[Key(s, date) := now[Key(s, date)] + buffers[s]] == Flushed(csv, date, buffers, todo - {s})
  {
  }

  lemma NothingRotated(csv: Files, gz: Files, date: string, todo: set<string>)
    requires todo == set k | k in csv.Keys + gz.Keys :: k.symbol
    ensures RotatedCsv(csv, gz, date, todo) == csv && RotatedGz(csv, gz, date, todo) == gz
  {
    forall k | k in csv ensures k.symbol in todo {
      assert k in csv.Keys + gz.Keys;
    }
  }

  lemma RotatedStep(csv: Files, gz: Files, date: string, todo: set<string>, s: string)
    requires s in todo
    ensures var k, c, g := Key(s, date), RotatedCsv(csv, gz, date, todo), RotatedGz(csv, gz, date, todo);
            var c', g' := RotatedCsv(csv, gz, date, todo - {s}), RotatedGz(csv, gz, date, todo - {s});
            if k in c && k !in g then c' == c - {k} && g' == g[k := c[k]] else c' == c && g' == g
  {
    var k := Key(s, date);
    forall x
      ensures Moves(csv, gz, date, todo - {s}, x) <==>
                Moves(csv, gz, date, todo, x) || (x == k && k in csv && k !in gz)
    {
    }
  }

  class TapeWriter {
    const disk: Disk
    const flushEvery: int
    var currentDate: string
    var files: map<string, OpenFile>
    var writers: map<string, OpenFile>
    var buf: nat
    var total: nat
    ghost var unflushed: seq<Row>

    /** The open files and their writers: the same symbols, each on the current date and on the disk. */
    ghost predicate Valid()
      reads `files, `writers, `currentDate, disk`csv
    {
      && files == writers
      && forall s | s in files :: files[s].key == Key(s, currentDate) && files[s].key in disk.csv
    }

    ghost function Pending(): (m: Buffers)
      reads `files, files.Values`pending
      ensures m.Keys == files.Keys
    {
      map s | s in files :: files[s].pending
    }

    ghost function View(): Snapshot
      reads this, disk, files.Values`pending
    {
      Snapshot(disk.csv, disk.gz, currentDate, Pending(), unflushed, buf)
    }

    constructor (d: Disk, flushEvery: int, today: string)
      ensures Valid() && disk == d && this.flushEvery == flushEvery && total == 0
      ensures View() == Snapshot(d.csv, d.gz, today, map[], [], 0)
    {
      disk, this.flushEvery, currentDate := d, flushEvery, today;
      files, writers, buf, total, unflushed := map[], map[], 0, 0, [];
    }

    /** The loop shared by flushing and closing. */
    method FlushFiles()
      requires Valid()
      modifies disk`csv, files.Values`pending
      ensures Valid() && files == old(files)
      ensures disk.csv == Flushed(old(disk.csv), currentDate, old(Pending()), {})
      ensures Pending() == map s | s in old(Pending()) :: []
    {
      hide Flushed;
      ghost var csv, buffers := disk.csv, Pending();
      var todo := files.Keys;
      NothingFlushed(csv, currentDate, buffers);
      while todo != {}
        invariant todo <= files.Keys && Valid()
        invariant forall s | s in files :: files[s].pending == if s in todo then buffers[s] else []
        invariant disk.csv == Flushed(csv, currentDate, buffers, todo)
        decreases todo
      {
        var s :| s in todo;
        FlushedStep(csv, currentDate, buffers, todo, s);
        files[s].Flush(disk);
        todo := todo - {s};
      }
    }

    method Flush()
      requires Valid()
      modifies disk`csv, files.Values`pending, `buf, `unflushed
      ensures Valid() && files == old(files) && View() == AfterFlush(old(View()))
    {
      hide Flushed;
      FlushFiles();
      buf, unflushed := 0, [];
    }

    method Close()
      requires Valid()
      modifies disk`csv, files.Values`pending, `files, `writers, `unflushed
      ensures Valid() && files == map[] && View() == AfterClose(old(View()))
    {
      hide Flushed;
      FlushFiles();
      files, writers, unflushed := map[], map[], [];
    }

    method RotateSymbolDay(symbol: string, date: string)
      modifies disk
      ensures var k := Key(symbol, date);
              if k in old(disk.csv) && k !in old(disk.gz)
              then disk.csv == old(disk.csv) - {k} && disk.gz == old(disk.gz)[k := old(disk.csv)[k]]
              else disk.csv == old(disk.csv) && disk.gz == old(disk.gz)
    {
      var k := Key(symbol, date);
      if k in disk.csv && k !in disk.gz {
        disk.gz := disk.gz[k := disk.csv[k]];
        disk.csv := disk.csv - {k};
      }
    }

    method CompressDay(date: string)
      modifies disk
      ensures disk.csv == RotatedCsv(old(disk.csv), old(disk.gz), date, {})
      ensures disk.gz == RotatedGz(old(disk.csv), old(disk.gz), date, {})
    {
      hide RotatedCsv, RotatedGz;
      ghost var csv, gz := disk.csv, disk.gz;
      var todo := set k | k in disk.csv.Keys + disk.gz.Keys :: k.symbol;
      NothingRotated(csv, gz, date, todo);
      while todo != {}
        invariant disk.csv == RotatedCsv(csv, gz, date, todo) && disk.gz == RotatedGz(csv, gz, date, todo)
        decreases todo
      {
        var s :| s in todo;
        RotatedStep(csv, gz, date, todo, s);
        RotateSymbolDay(s, date);
        todo := todo - {s};
      }
    }

    /** `today` is the clock, `expired` the compressed files past retention. */
    method RotateIfNeeded(today: string, expired: set<Key>)
      requires Valid()
      modifies this, disk, files.Values`pending
      ensures Valid() && total == old(total) && View() == AfterRotate(old(View()), today, expired)
      ensures forall s | s in files :: s in old(files) && files[s] == old(files)[s]
    {
      if today == currentDate {
        return;
      }
      var prevDate := currentDate;
      Close();
      CompressDay(prevDate);
      disk.gz := disk.gz - expired;
      currentDate := today;
      files, writers, buf := map[], map[], 0;
    }

    method OpenSymbol(symbol: string)
      requires Valid()
      modifies disk`csv, `files, `writers
      ensures Valid() && symbol in files && View() == AfterOpen(old(View()), symbol)
      ensures forall s | s in files :: (s in old(files) && files[s] == old(files)[s]) || fresh(files[s])
    {
      if symbol in writers {
        return;
      }
      var k := Key(symbol, currentDate);
      var writeHeader := k !in disk.csv;
      var f := new OpenFile(k, disk);
      if writeHeader {
        f.WriteRow(Header);
      }
      assert f.pending == if writeHeader then [Header] else [];
      files := files[symbol := f];
      writers := writers[symbol := f];
      assert Pending() == old(Pending())[symbol := f.pending];
      assert View() == AfterOpen(old(View()), symbol);
    }

    method WriteRow(row: Row)
      requires Valid() && row.symbol in files
      modifies files.Values`pending, `unflushed
      ensures Valid() && View() == AfterAppend(old(View()), row)
    {
      writers[row.symbol].WriteRow(Data(row));
      unflushed := unflushed + [row];
    }

    /** Puts one row into the buffer of its symbol's file, opening it if need be. */
    method AppendRow(row: Row)
      requires Valid()
      modifies disk`csv, `files, `writers, `unflushed, files.Values`pending
      ensures Valid() && View() == AfterAppend(AfterOpen(old(View()), row.symbol), row)
      ensures forall s | s in files :: (s in old(files) && files[s] == old(files)[s]) || fresh(files[s])
    {
      hide AfterOpen, AfterAppend;
      OpenSymbol(row.symbol);
      WriteRow(row);
    }

    method CountRow()
      requires Valid()
      modifies `buf, `total
      ensures Valid() && View() == old(View()).(buf := old(buf) + 1) && buf == old(buf) + 1
      ensures total == old(total) + 1
    {
      buf := buf + 1;
      total := total + 1;
      assert Pending() == old(Pending());
    }

    method Write(today: string, expired: set<Key>, row: Row)
      requires Valid()
      modifies this, disk, files.Values`pending
      ensures Valid() && View() == AfterWrite(old(View()), today, expired, row, flushEvery)
      ensures total == old(total) + 1
      ensures forall s | s in files :: (s in old(files) && files[s] == old(files)[s]) || fresh(files[s])
    {
      hide AfterFlush, AfterRotate, AfterOpen, AfterAppend;
      RotateIfNeeded(today, expired);
      AppendRow(row);
      CountRow();
      if buf >= flushEvery {
        Flush();
      }
    }

    method WriteGap(today: string, expired: set<Key>, row: Row)
      requires Valid()
      modifies this, disk, files.Values`pending
      ensures Valid() && View() == AfterGap(old(View()), today, expired, row)
      ensures total == old(total)
      ensures forall s | s in files :: (s in old(files) && files[s] == old(files)[s]) || fresh(files[s])
    {
      hide AfterFlush, AfterRotate, AfterOpen, AfterAppend;
      RotateIfNeeded(today, expired);
      AppendRow(row);
      Flush();
    }
  }
}
