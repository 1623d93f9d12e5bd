/** The "Expiration" column of the posts and pages lists: the column header
    and what a row prints in it. */
module Columns {
  import opened Php
  import opened Dates
  import Sweep
  import Host

  /** What `add_expires_column_data` prints for one post: nothing (another
      column), "Never", the bold "Expired", the stored string itself, or an
      uncaught DateTime exception, which ends the request so that the list
      does not render. */
  datatype Cell = Blank | Never | Expired | Shown(text: string) | Uncaught

  /** `add_expires_column_data($column_name, $postid)`, given the stored
      'content_expiration' value ("" when there is none). */
  function ColumnData(column: string, stored: string, lib: DateLib, zone: string, now: Stamp): (c: Cell)
    ensures c == Blank <==> column != "expiration"
    ensures c == Never <==> column == "expiration" && Empty(stored)
    ensures c == Expired <==>
      column == "expiration" && !Empty(stored) && Construct(lib, stored, zone).Some?
      && Construct(lib, stored, zone).value <= now
    ensures c.Shown? <==>
      column == "expiration" && !Empty(stored) && Construct(lib, stored, zone).Some?
      && now < Construct(lib, stored, zone).value
    // the raw stored string is what is shown, never a reformatted one
    ensures c.Shown? ==> c.text == stored
    ensures c == Uncaught <==> column == "expiration" && !Empty(stored) && Construct(lib, stored, zone).None?
  {
    if column != "expiration" then Blank
    else if Empty(stored) then Never
    else
      match Construct(lib, stored, zone)
      case None => Uncaught
      case Some(exp) => if exp <= now then Expired else Shown(stored)
  }

  /** `add_expires_column($columns)`: sets the 'expiration' header, in place
      when present, appended as the last column otherwise. */
  function AddExpiresColumn(cols: seq<(string, string)>): (r: seq<(string, string)>)
    ensures Lookup(r, "expiration") == Some("Expiration")
    ensures forall k :: k != "expiration" ==> Lookup(r, k) == Lookup(cols, k)
    ensures Lookup(cols, "expiration") == None ==> r == cols + [("expiration", "Expiration")]
    ensures Lookup(cols, "expiration") != None ==> |r| == |cols|
    ensures Lookup(cols, "expiration") != None ==>
      forall i :: 0 <= i < |cols| ==> r[i].0 == cols[i].0 && (r[i].0 != "expiration" ==> r[i] == cols[i])
  {
    Assign(cols, "expiration", "Expiration")
  }

  /** What a list-header filter hands back: the new headers, or nothing
      because PHP refused the call. */
  datatype Headers = Headers(cols: seq<(string, string)>) | Refused

  /** `add_filter` without its fourth argument registers a callback that
      WordPress passes one argument; both of the class's header filters are
      registered that way. */
  const FilterArgs: nat := 1

  /** The class's `add_expires_column($post_columns, $post_type)` as
      `apply_filters` calls it with `passed` arguments. Both parameters are
      required, so PHP throws ArgumentCountError on a call with fewer than
      two; a call with both sets the header as the older filter does. */
  function ClassAddExpiresColumn(cols: seq<(string, string)>, passed: nat): (h: Headers)
    ensures h == Refused <==> passed < 2
    ensures h.Headers? ==> Lookup(h.cols, "expiration") == Some("Expiration")
    ensures h.Headers? ==> forall k :: k != "expiration" ==> Lookup(h.cols, k) == Lookup(cols, k)
  {
    if passed < 2 then Refused else Headers(AddExpiresColumn(cols))
  }

  /** As registered, the class's header filter never returns: every call
      hands it one argument, and the uncaught ArgumentCountError ends the
      request, so the posts and pages lists do not render. */
  lemma ClassHeaderFilterRefused(cols: seq<(string, string)>)
    ensures ClassAddExpiresColumn(cols, FilterArgs) == Refused
  {
  }

  /** The column and the sweep agree: for a published post, the column says
      "Expired" exactly when the sweep's expiry check takes it off 'publish'
      at the same moment, and a stamp the column cannot read is one the
      sweep skips. */
  lemma ColumnAgreesWithSweep(st: Host.SiteState, row: Sweep.Row, env: Sweep.Env)
    requires st.Published(row.post) && !Empty(row.value)
    ensures ColumnData("expiration", row.value, env.lib, env.zone, env.now) == Expired
        <==> !Sweep.Step(st, row, env).Published(row.post)
    ensures ColumnData("expiration", row.value, env.lib, env.zone, env.now) == Uncaught
        ==> Sweep.Step(st, row, env) == st
  {
  }
}
