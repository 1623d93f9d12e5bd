/** The older `ContentExpiration` class and the cron script it includes: the
    same handlers, with every DateTime built in the fixed zone
    America/New_York. */
module LegacyPlugin {
  import opened Dates
  import opened Host
  import Setter
  import Sweep

  const NewYork: string := "America/New_York"

  /** `save_expiration_data($postid, $post, $update)`. */
  method SaveExpirationData(site: Site, postid: PostId, post: Setter.Post, req: Setter.Request,
                            form: Setter.Form, lib: DateLib)
    returns (r: PostId)
    modifies site
    ensures r == postid
    ensures site.State() == Setter.Effect(old(site.State()), postid, Setter.Decide(postid, post, req, form, lib, NewYork))
  {
    r := Setter.SaveExpirationData(site, postid, post, req, form, lib, NewYork);
  }

  /** `handle_cron_event()`: runs process-expirations.php over the rows of
      its query, with the clock read at the start of the run. Every run
      completes as long as DateTimeZone knows the fixed zone. */
  method HandleCronEvent(site: Site, rows: seq<Sweep.Row>, lib: DateLib, now: Stamp, soon: Stamp)
    returns (completed: bool)
    modifies site
    ensures lib.zoneKnown(NewYork) ==> completed
    ensures completed ==> site.State() == Sweep.Run(old(site.State()), rows, Sweep.Env(lib, NewYork, now, soon))
    ensures !completed ==> rows != [] && site.State() == old(site.State())
  {
    completed := Sweep.Sweep(site, rows, Sweep.Env(lib, NewYork, now, soon));
  }
}
