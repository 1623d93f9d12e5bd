/** The `Content_Expiration` class: its `save_post` handler and its hourly
    cron handler, each building its DateTimes in the zone named by a site
    option. */
module ContentExpirationPlugin {
  import opened Php
  import opened Dates
  import opened Host
  import Setter
  import Sweep
  import Columns

  /** The site's options table. */
  type Options = map<string, string>

  /** `get_option($name)` used as a zone name: the stored value, or PHP's
      false, which becomes "" where a string is expected. */
  function GetOption(options: Options, name: string): string {
    if name in options then options[name] else ""
  }

  /** The zone name the class's date code reads, as written: the option key
      is spelled 'timzone_string'. */
  function ZoneAsWritten(options: Options): string {
    GetOption(options, "timzone_string")
  }

  /** The site's configured zone, read under WordPress's own key
      'timezone_string', as the constructor does when it schedules the cron
      event. The entry points below use this one. */
  function SiteZone(options: Options): string {
    GetOption(options, "timezone_string")
  }

  /** `save_expiration_data($postid, $post, $update)` with the option key
      corrected: the zone is read from 'timezone_string' (see
      `MisspelledZoneDisablesPlugin` for the handler as written). */
  method SaveExpirationData(site: Site, postid: PostId, post: Setter.Post, req: Setter.Request,
                            form: Setter.Form, lib: DateLib, options: Options)
    returns (r: PostId)
    modifies site
    ensures r == postid
    ensures site.State()
         == Setter.Effect(old(site.State()), postid, Setter.Decide(postid, post, req, form, lib, SiteZone(options)))
  {
    r := Setter.SaveExpirationData(site, postid, post, req, form, lib, SiteZone(options));
  }

  /** `process_cron()` over the rows of its query, with the clock read at
      the start of the run and the option key corrected as above. */
  method ProcessCron(site: Site, rows: seq<Sweep.Row>, lib: DateLib, options: Options, now: Stamp, soon: Stamp)
    returns (completed: bool)
    modifies site
    ensures completed <==> rows == [] || lib.zoneKnown(SiteZone(options))
    ensures completed ==> site.State() == Sweep.Run(old(site.State()), rows, Sweep.Env(lib, SiteZone(options), now, soon))
    ensures !completed ==> site.State() == old(site.State())
  {
    completed := Sweep.Sweep(site, rows, Sweep.Env(lib, SiteZone(options), now, soon));
  }

  /** As written, on a site that never set an option 'timzone_string' (the
      usual case, since WordPress stores its zone as 'timezone_string'), the
      zone name is "", which DateTimeZone refuses. Then no by-days or by-date
      save stores anything (the exception is caught and the handler
      returns), the cron run dies at its first row (the exception escapes),
      and the column dies on every post that has an expiration. */
  lemma MisspelledZoneDisablesPlugin(
    options: Options, lib: DateLib, postid: PostId, post: Setter.Post, req: Setter.Request, form: Setter.Form,
    rows: seq<Sweep.Row>, now: Stamp, soon: Stamp, column: string, stored: string)
    requires "timzone_string" !in options
    requires !lib.zoneKnown("")
    ensures !Setter.Decide(postid, post, req, form, lib, ZoneAsWritten(options)).Store?
    ensures rows != [] ==> !Sweep.Completes(rows, Sweep.Env(lib, ZoneAsWritten(options), now, soon))
    ensures column == "expiration" && !Empty(stored) ==>
      Columns.ColumnData(column, stored, lib, ZoneAsWritten(options), now) == Columns.Uncaught
  {
  }

  /** With the zone read from 'timezone_string', a site whose configured zone
      is one DateTimeZone knows gets what the plugin promises: an authorized
      by-days save of a valid count stores an expiration (when the library
      computes the date) and clears the notified flag, and every cron run
      completes. */
  lemma SiteZoneEnablesPlugin(
    options: Options, lib: DateLib, postid: PostId, post: Setter.Post, req: Setter.Request, form: Setter.Form,
    rows: seq<Sweep.Row>, now: Stamp, soon: Stamp, st: SiteState)
    requires "timezone_string" in options && lib.zoneKnown(options["timezone_string"])
    requires Setter.Authorized(postid, post, req, form) && Setter.Mode(form) == Some("by-days")
    requires Setter.DaysField(form).Some?
    requires lib.parse(Setter.DaysText(form["expiration-days"]), options["timezone_string"]).Some?
    ensures Setter.Decide(postid, post, req, form, lib, SiteZone(options)).Store?
    ensures postid in Setter.Effect(st, postid, Setter.Decide(postid, post, req, form, lib, SiteZone(options))).expiration
    ensures postid !in Setter.Effect(st, postid, Setter.Decide(postid, post, req, form, lib, SiteZone(options))).notified
    ensures Sweep.Completes(rows, Sweep.Env(lib, SiteZone(options), now, soon))
  {
  }
}
