/** The chunked audit-log exports: a fixed row order read page by page, in both formats. */
module AuditExport {
  import opened Strings

  const CHUNK_SIZE: nat := 500

  function Min(a: nat, b: nat): nat {
    if a < b then a else b
  }

  /** One page of an ordered query. */
  function Page<Row>(rows: seq<Row>, offset: nat, limit: nat): seq<Row> {
    if offset >= |rows| then [] else rows[offset..offset + Min(limit, |rows| - offset)]
  }

  lemma PageExtends<Row>(rows: seq<Row>, offset: nat, size: nat)
    requires offset <= |rows|
    ensures var page := Page(rows, offset, size);
      |page| == Min(size, |rows| - offset) && rows[..offset] + page == rows[..offset + |page|]
  {
  }

  function Rendered<Row>(rows: seq<Row>, render: Row -> string): (texts: seq<string>)
    ensures |texts| == |rows|
  {
    if rows == [] then [] else Rendered(rows[..|rows| - 1], render) + [render(rows[|rows| - 1])]
  }

  lemma RenderedPush<Row>(rows: seq<Row>, row: Row, render: Row -> string)
    ensures Rendered(rows + [row], render) == Rendered(rows, render) + [render(row)]
  {
    assert (rows + [row])[..|rows|] == rows;
  }

  /** stream_json: exactly the first `limit` rows, once each, in order, separated by commas. */
  method StreamJson<Row>(rows: seq<Row>, limit: nat, render: Row -> string) returns (text: string)
    ensures text == "[\n" + Join(Rendered(rows[..Min(limit, |rows|)], render), ",\n") + "\n]"
  {
    var body, first, offset, emitted := "", true, 0, 0;
    while emitted < limit
      invariant emitted == offset <= Min(limit, |rows|) && first == (emitted == 0)
      invariant body == Join(Rendered(rows[..emitted], render), ",\n")
      decreases limit - emitted
    {
      var batch_size := Min(CHUNK_SIZE, limit - emitted);
      var batch := Page(rows, offset, batch_size);
      PageExtends(rows, offset, batch_size);
      if batch == [] {
        break;
      }
      body, first := EmitBatch(rows[..offset], batch, body, first, render);
      emitted := emitted + |batch|;
      offset := offset + |batch|;
      if |batch| < batch_size {
        break;
      }
    }
    text := "[\n" + body + "\n]";
  }

  /** The inner loop over a batch, after the rows `done`. */
  method EmitBatch<Row>(done: seq<Row>, batch: seq<Row>, body: string, first: bool, render: Row -> string)
    returns (body': string, first': bool)
    requires first == (done == []) && body == Join(Rendered(done, render), ",\n")
    ensures first' == (done + batch == []) && body' == Join(Rendered(done + batch, render), ",\n")
  {
    body', first' := body, first;
    var i := 0;
    assert done + batch[..0] == done;
    while i < |batch|
      invariant i <= |batch| && first' == (done + batch[..i] == [])
      invariant body' == Join(Rendered(done + batch[..i], render), ",\n")
    {
      var before := done + batch[..i];
      assert done + batch[..i + 1] == before + [batch[i]];
      RenderedPush(before, batch[i], render);
      if !first' {
        JoinPush(Rendered(before, render), render(batch[i]), ",\n");
        body' := body' + ",\n";
      }
      first' := false;
      body' := body' + render(batch[i]);
      i := i + 1;
    }
    assert batch[..i] == batch;
  }

  lemma {:induction false} JoinAppend(parts: seq<string>, x: string)
    ensures Join(parts + [x], "") == Join(parts, "") + x
  {
    if parts == [] {
      assert parts + [x] == [x];
    } else {
      JoinPush(parts, x, "");
    }
  }

  /** stream_csv: the header, then exactly the same rows, a line each. */
  method StreamCsv<Row>(rows: seq<Row>, limit: nat, header: string, line: Row -> string) returns (text: string)
    ensures text == header + Join(Rendered(rows[..Min(limit, |rows|)], line), "")
  {
    text := header;
    var offset, emitted := 0, 0;
    while emitted < limit
      invariant emitted == offset <= Min(limit, |rows|)
      invariant text == header + Join(Rendered(rows[..emitted], line), "")
      decreases limit - emitted
    {
      var batch_size := Min(CHUNK_SIZE, limit - emitted);
      var batch := Page(rows, offset, batch_size);
      PageExtends(rows, offset, batch_size);
      if batch == [] {
        break;
      }
      var buffer := BufferLines(rows[..offset], batch, line);
      NextPage(text, header, Rendered(rows[..offset], line), buffer, Rendered(rows[..offset + |batch|], line));
      text := text + buffer;
      emitted := emitted + |batch|;
      offset := offset + |batch|;
      if |batch| < batch_size {
        break;
      }
    }
  }

  lemma NextPage(text: string, header: string, before: seq<string>, buffer: string, after: seq<string>)
    requires text == header + Join(before, "") && Join(before, "") + buffer == Join(after, "")
    ensures text + buffer == header + Join(after, "")
  {
  }

  method BufferLines<Row>(ghost done: seq<Row>, batch: seq<Row>, line: Row -> string) returns (buffer: string)
    ensures Join(Rendered(done, line), "") + buffer == Join(Rendered(done + batch, line), "")
  {
    buffer := "";
    var i := 0;
    assert done + batch[..0] == done;
    while i < |batch|
      invariant i <= |batch|
      invariant Join(Rendered(done, line), "") + buffer == Join(Rendered(done + batch[..i], line), "")
    {
      ghost var before := done + batch[..i];
      assert done + batch[..i + 1] == before + [batch[i]];
      RenderedPush(before, batch[i], line);
      JoinAppend(Rendered(before, line), line(batch[i]));
      buffer := buffer + line(batch[i]);
      i := i + 1;
    }
    assert batch[..i] == batch;
  }
}
