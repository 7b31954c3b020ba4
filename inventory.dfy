/**
 * The process-wide VM list `bhyves` of main.go and the two listing
 * handlers.  The outcome of running `cbsd bls` (cmd.Output) is an input:
 * either the command failed, or it printed some text.
 *
 * HandleInitBhyveList runs once, at start-up, and APPENDS the parsed
 * records to `bhyves`; HandleBhyveList parses into a local list and never
 * writes `bhyves`; HandleCacheBhyveList only reads it.
 */
module Inventory {
  import opened GoText
  import opened Listing

  /**
   * What cmd.Output() gave for the listing command, `env NOCOLOR=0 cbsd bls
   * header=0 display=jname,jid,vm_ram,vm_cpus,vm_os_type,status,vnc_port`
   * (seven columns, no header): an error, or the text the command wrote.
   */
  datatype ListingResult = Failed | Output(stdout: string)

  /** What HandleBhyveList sends back. */
  datatype ListReply =
    | NoBody                          // the command failed: the handler returns before writing
    | Listed(records: seq<Bhyves>)    // the parsed records, JSON-encoded by the handler
    | Aborted                         // a line had fewer than seven fields: the index panic ends the request

  /** The reply the live listing gives for a command result. */
  function LiveReply(result: ListingResult): (r: ListReply)
    ensures r.NoBody? <==> result.Failed?
    ensures r.Listed? ==> r.records == ParseLines(Split(result.stdout, '\n')).records
    ensures r.Listed? ==> |r.records| == |Kept(Split(result.stdout, '\n'))|
    ensures r.Aborted? ==> result.Output? && |ParseLines(Split(result.stdout, '\n')).records| < |Kept(Split(result.stdout, '\n'))|
  {
    match result
    case Failed => NoBody
    case Output(text) =>
      var p := ParseLines(Split(text, '\n'));
      if p.complete then Listed(p.records) else Aborted
  }

  /** The package state of main.go that the handlers share. */
  class Inventory {
    /** The global `bhyves`: the records read at start-up. */
    var bhyves: seq<Bhyves>

    /** The zero value of a Go slice. */
    constructor ()
      ensures bhyves == []
    {
      bhyves := [];
    }

    /**
     * HandleInitBhyveList: on failure of the command nothing changes;
     * otherwise the records of the listing are appended to `bhyves`, in
     * order.  A line with fewer than seven fields panics after the lines
     * before it were appended: `completed` is false and `bhyves` holds
     * those records.
     */
    method InitBhyveList(result: ListingResult) returns (completed: bool)
      modifies this
      ensures result.Failed? ==> completed && bhyves == old(bhyves)
      ensures result.Output? ==>
        var p := ParseLines(Split(result.stdout, '\n'));
        completed == p.complete && bhyves == old(bhyves) + p.records
    {
      if result.Failed? {
        return true;
      }
      var lines := Split(result.stdout, '\n');
      var i := 0;
      while i < |lines|
        invariant 0 <= i <= |lines|
        invariant ParseLines(lines[..i]).complete
        invariant bhyves == old(bhyves) + ParseLines(lines[..i]).records
      {
        var line := lines[i];
        ParseLinesNext(lines, i);
        if Utf8Len(line) > 2 {
          var rec := ParseLine(line);
          if rec.None? {
            ParseLinesStopped(lines, i + 1);
            return false;
          }
          bhyves := bhyves + [rec.value];
        }
        i := i + 1;
      }
      assert lines[..i] == lines;
      return true;
    }

    /** HandleBhyveList: builds its own list of records and leaves `bhyves` alone. */
    method BhyveList(result: ListingResult) returns (reply: ListReply)
      ensures reply == LiveReply(result)
    {
      if result.Failed? {
        return NoBody;
      }
      var lines := Split(result.stdout, '\n');
      var imas: seq<Bhyves> := [];
      for i := 0 to |lines|
        invariant ParseLines(lines[..i]) == ParseOutcome(imas, true)
      {
        var line := lines[i];
        ParseLinesNext(lines, i);
        if Utf8Len(line) > 2 {
          var rec := ParseLine(line);
          if rec.None? {
            ParseLinesStopped(lines, i + 1);
            return Aborted;
          }
          imas := imas + [rec.value];
        }
      }
      assert lines[..|lines|] == lines;
      return Listed(imas);
    }

    /** HandleCacheBhyveList: the records read at start-up, as they are. */
    method CacheBhyveList() returns (records: seq<Bhyves>)
      ensures records == bhyves
    {
      return bhyves;
    }
  }

  /**
   * main: the list is filled once before the server starts.  Starting from
   * the empty slice, the cache then holds exactly what a live listing of
   * the same output would have returned.
   */
  method Boot(result: ListingResult) returns (inv: Inventory)
    ensures fresh(inv)
    ensures LiveReply(result).Listed? ==> inv.bhyves == LiveReply(result).records
    ensures LiveReply(result).NoBody? ==> inv.bhyves == []
  {
    inv := new Inventory();
    var _ := inv.InitBhyveList(result);
  }
}
