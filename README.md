# Content Expiration, modelled in Dafny

A WordPress plugin that lets an editor give a post or page an expiration
moment. An hourly cron job then does two things:
- it mails the author two weeks before the moment;
- at the moment itself, it mails the author again and moves the post from
  `publish` to the hidden status `expired`.

Content is never deleted. Two copies of the code are modelled:
- the `Content_Expiration` class (class-content-expiration.php);
- the older `ContentExpiration` class (content-expiration.php) with its cron
  script (process-expirations.php).

The two copies' setter, sweep and column cell differ only in the time zone
their DateTimes are built in. The older copy fixes it to America/New_York. The
class reads it from a site option (see Findings). So both share one setter, one
sweep and one column renderer, parametrised by the zone name. The class's
column-header filter also differs: it declares a second required parameter that
WordPress never passes it (see Findings).

Modules, one per component:

- `Php`: PHP's `empty()` and `ctype_digit()` on strings, and the numeric value of
  a digit string. It also holds PHP's ordered string-keyed arrays (`Lookup`,
  `Assign`).
- `Dates`: PHP's DateTime as an uninterpreted library (`DateLib`):
  - whether a zone name is known;
  - the moment a string denotes in a zone (`None` when the constructor throws);
  - formatting in the two patterns the plugin stores.

  `Construct` is `new DateTime(text, new DateTimeZone(zone))`.
- `Host`: the WordPress state the plugin touches, as the class `Site`:
  - the two post-meta keys `content_expiration` and `content_expiration_notified`;
  - post statuses;
  - an outbox of mails handed to `wp_mail`.

  Its methods are `add_post_meta` (unique), `update_post_meta`,
  `delete_post_meta`, `wp_update_post` for the status, and `wp_mail`.
  `SiteState` is the same state as one value.
- `Setter`: the `save_post` handler.
  - `Decide` is the pure decision: `Keep`, `Clear`, or `Store(value)`.
  - `Effect` is what a decision does to the site.
  - The method `SaveExpirationData` replays the source's chain of early returns
    and its deletes and upserts. It is proved to reach `Effect(old, Decide(...))`.
- `Sweep`: the cron loop.
  - `Step` is one row: the warning check, then the expiry check, both against
    the same `now` and `now + 2 weeks`.
  - `Run` folds `Step` over the rows.
  - The method `Sweep` is the imperative loop, proved equal to `Run`. It returns
    false when an uncaught exception ends the run.

  The lemmas state what any run does.
- `Columns`: the "Expiration" column header and cell.
- `ContentExpirationPlugin` and `LegacyPlugin`: the entry points of the two
  copies, with their zones.

## Model

| member | source | states |
|---|---|---|
| `Php.Assign` | class-content-expiration.php:349 | assigning a key sets its lookup to the new value and leaves every other key's lookup alone; an existing key is overwritten where it stands (same length, same key order), a new key is appended at the end |
| `Setter.DaysField` | class-content-expiration.php:270-280 | the by-days count is accepted exactly when it is set, all digits, and its value is 1 to 1824; the `empty()` check adds nothing beyond that, since the only digit string it refuses is "0" |
| `Setter.DaysFieldEdges` | content-expiration.php:186-191 | "0", "00", "1825", "", "-5", " 5" and a missing field are refused; "1", "0001" and "1824" pass unchanged |
| `Setter.Decide` | class-content-expiration.php:232-334 | fail-closed: a failed nonce, type, capability or autosave guard decides `Keep`; `nochange`, a missing or unknown status decides `Keep`; `Clear` exactly for an authorized `disable`; a by-days `Store` only for a 1..1824 digit count the date library accepts, its value the top-of-hour format of that moment; a by-date `Store` only for five well-formed fields the library accepts, in the exact format; and past the guards, valid input the library accepts always stores |
| `Setter.Effect` | class-content-expiration.php:260-331 | post status and mail are never touched; no other post's meta changes; `Clear` deletes both keys; `Store(v)` sets the expiration to v and deletes the notified flag; whenever the expiration changes, the notified flag is gone |
| `Setter.SaveExpirationData` | class-content-expiration.php:231-335 | returns `$postid`; the site afterwards is exactly `Effect(old state, postid, Decide(...))`, reached through the same early returns, add-else-update upsert and deletes |
| `Setter.DisableIsIdempotent` | class-content-expiration.php:261-265 | disabling twice leaves the same site as disabling once |
| `Setter.EffectIsIdempotent` | class-content-expiration.php:283-297 | applying the same decision twice leaves the same site as applying it once |
| `Sweep.Sweep` | process-expirations.php:14-59 | the loop completes exactly when there are no rows or the zone is known; a completed loop leaves the site equal to `Run(old state, rows)`; an aborted one leaves it unchanged |
| `Sweep.RunKeepsExpiration` | process-expirations.php:39-57 | a run never writes or deletes `content_expiration` |
| `Sweep.RunExtendsOutbox` | process-expirations.php:37-54 | a run only appends mail; what was in the outbox stays as its prefix |
| `Sweep.RunIsolatesPosts` | process-expirations.php:14-59 | per-item independence: a post's status, notified flag and mail after a run are those of a run over that post's rows alone |
| `Sweep.RunLeavesUnpublished` | process-expirations.php:27-47 | a post not published when the run starts ends it with the same status, flag and mail; `expired` is terminal for the sweep |
| `Sweep.RunStatusTransitions` | process-expirations.php:46-57 | a run changes a post's status only from `publish` to `expired` |
| `Sweep.RunSendsEachNoticeAtMostOnce` | process-expirations.php:27-57 | per post, warnings sent plus "flag still empty" is conserved, so a run sends at most one warning and only while the flag is empty; expiry notices plus "still published" is conserved the same way |
| `Sweep.RunIsIdempotent` | process-expirations.php:27-57 | a second run over the same rows at the same time changes nothing and sends no mail |
| `Sweep.RunSkipsUnparseable` | process-expirations.php:21-25 | a row whose stored stamp DateTime refuses is skipped; the run equals the run without that row, so the rows after it are still processed |
| `Sweep.RunLeavesUndue` | process-expirations.php:27-57 | the checks fire only for a due post: a post whose every row has an unparseable stamp or one later than both now and now + 2 weeks keeps its status, flag and mail through the run, so no warning comes before the two-week window and no expiry before the moment |
| `Sweep.RunWarnsDuePost` | process-expirations.php:27-57 | take a post with a parseable row due within two weeks. If it is still published after the run, or if it was published at the start and now comes before now + 2 weeks, then afterwards its notified flag is set and exactly the warnings it had left were sent about it (one if its flag was empty, none otherwise). This includes a post the same run expires: it is warned before it is expired |
| `Sweep.RunKeepsFlag` | process-expirations.php:27-57 | a run never clears a set notified flag |
| `Sweep.RunExpiresOnlyWarned` | process-expirations.php:27-57 | when now comes before now + 2 weeks, a post that a run takes off `publish` ends the run with its notified flag set |
| `Sweep.RunExpiresDuePost` | process-expirations.php:46-57 | a post published at the start with a parseable row due at or before now ends the run `expired`, with exactly one more expiry notice about it |
| `Sweep.BothNoticesAtBoundary` | process-expirations.php:27-57 | a published, unwarned post whose stamp is exactly `now` gets the warning and then the expiry notice in one run, with flag set and status `expired` |
| `Columns.ColumnData` | content-expiration.php:252-267 | another column prints nothing; an empty stored value prints "Never"; a stamp at or before now prints "Expired"; a later one prints the raw stored string; an unparseable one throws |
| `Columns.AddExpiresColumn` | content-expiration.php:246-249 | the `expiration` header becomes "Expiration"; every other column keeps its header and place; a new column goes last |
| `Columns.ClassAddExpiresColumn` | class-content-expiration.php:348-351 | the class's two-parameter filter throws exactly when it is passed fewer than two arguments; passed both, it sets the "Expiration" header and leaves every other header's lookup alone |
| `Columns.ClassHeaderFilterRefused` | class-content-expiration.php:44-48 | registered without an argument count, so passed one argument, the class's header filter always throws |
| `Columns.ColumnAgreesWithSweep` | content-expiration.php:259-264 | for a published post, the column says "Expired" exactly when the sweep's expiry check at the same moment unpublishes it; a stamp the column cannot read is one the sweep skips |
| `ContentExpirationPlugin.SaveExpirationData` | class-content-expiration.php:283-320 | the class handler with the option key corrected to `timezone_string`: the shared setter in the site's configured zone; afterwards the site is `Effect(old, Decide(..., SiteZone(options)))` |
| `ContentExpirationPlugin.ProcessCron` | class-content-expiration.php:395-463 | the class cron with the option key corrected to `timezone_string`: it completes exactly when there are no rows or the configured zone is known; it then equals `Run`, and otherwise nothing changes |
| `ContentExpirationPlugin.MisspelledZoneDisablesPlugin` | class-content-expiration.php:413-418 | with the option key as written and no such option, no save ever stores an expiration, any run with rows dies at its first row, and every non-empty column cell throws |
| `ContentExpirationPlugin.SiteZoneEnablesPlugin` | class-content-expiration.php:59 | reading the zone from `timezone_string` on a site with a known zone: a valid authorized by-days save stores and clears the flag, and every run completes |
| `LegacyPlugin.SaveExpirationData` | content-expiration.php:155-243 | the older handler is the shared setter in America/New_York; afterwards the site is `Effect(old, Decide(..., "America/New_York"))` |
| `LegacyPlugin.HandleCronEvent` | content-expiration.php:270-272 | running process-expirations.php completes whenever the fixed zone is known, and then equals `Run` in America/New_York |

The class's `add_expires_column` (class-content-expiration.php:348-351) is
`Columns.ClassAddExpiresColumn`, which calls `Columns.AddExpiresColumn` when
it is passed both arguments. The class's `add_expires_column_data` (class-content-expiration.php:365-381) is
`Columns.ColumnData` in the class's zone. The class's `process_cron` loop
(class-content-expiration.php:407-462) is the same code as
process-expirations.php:14-59, and both are modelled by `Sweep.Sweep`.

## Left out

- Sweep.Sweep: the source builds its "+2 weeks" and "now" DateTimes again for
  every row. The model reads the clock once per run (`Env.now`, `Env.soon`).
  A run that crosses a second boundary between two rows is not modelled.
- Sweep.BothNoticesAtBoundary, Sweep.RunWarnsDuePost (for posts the run
  expires) and Sweep.RunExpiresOnlyWarned assume `now <= now + 2 weeks`; the
  other sweep lemmas do not. That ordering is a fact about the date library,
  which the model does not interpret. Without it, a run could expire a due,
  unwarned post without warning it.
- PHP's DateTime arithmetic is an uninterpreted library: calendars, zones,
  daylight saving, relative phrases and formatting are all out.
  - Whether "2030-02-30" is refused is the library's decision. The by-date
    branch checks only that each field is a digit string and leaves the rest
    to the DateTime constructor (class-content-expiration.php:315-320): the
    record changes only if the constructor accepts.
  - By-days expirations are stored at the top of the hour, in the pattern
    'Y-m-d h:00:00 A T' (class-content-expiration.php:288). Only the cron
    event is scheduled at one minute past the hour
    (class-content-expiration.php:59-66). The model stores `Pattern.TopOfHour`.
- The SQL query of the sweep is not modelled: its result is the given sequence
  of rows.
- Post meta is single-valued in the model. The plugin only writes with
  `add_post_meta(..., true)` or `update_post_meta`, so it never creates a second
  value itself.
- `wp_mail`, `get_the_author_meta` and `site_url` are foreign calls. A mail is
  recorded as its kind, the author's user id, the post and the title. The
  message wording, the e-mail lookup and transport failures are out.
- Store failures are out: an `add_post_meta` that fails for a reason other than
  an existing key, and database errors.
- The nonce (`check_admin_referer`) and `current_user_can` are boolean inputs.
  In WordPress a failed nonce check ends the request. The plugin's own early
  return has the same effect on the store.
- `wp_update_post` fires `save_post` again during the cron run. That nested
  call carries no nonce field and returns at the first guard. It is not modelled.
- `handle_cron_event` uses `require_once`, so a second cron event in the same
  PHP process would run nothing. The model treats every event as a fresh request.
- The meta-box HTML (`add_expiration_box`, `add_expiration_box_data`),
  content-expiration.js, `add_js` / `add_media`, `add_expired_post_status`,
  hook registration, `wp_schedule_event` / `wp_next_scheduled`, and
  `deactivate`. These are user interface and host registration only.
- ContentExpirationPlugin.SaveExpirationData: models the class's handler with
  the option key corrected to `timezone_string`. As written, the handler reads
  `timzone_string` (class-content-expiration.php:284, 317), and on a site
  without that option it stores nothing; `MisspelledZoneDisablesPlugin` states
  that behaviour.
- ContentExpirationPlugin.ProcessCron: models the class's cron with the option
  key corrected to `timezone_string`. As written, it reads `timzone_string`
  (class-content-expiration.php:413, 415, 442), and on a site without that
  option it dies at its first row; `MisspelledZoneDisablesPlugin` states that
  behaviour.
- Overlapping cron runs: the code takes no lock, and the model considers one
  run at a time.

## Findings

| source | as written | input that shows it | evidently intended | confidence | as-written member | corrected member |
|---|---|---|---|---|---|---|
| class-content-expiration.php:284 | every DateTimeZone in the class (lines 284, 317, 372, 373, 413, 415, 442) is built from `get_option( 'timzone_string' )`, a key WordPress never sets; line 59 reads `timezone_string` | a site whose options hold `timezone_string` = "America/New_York" and no `timzone_string`: `get_option` returns false, the zone name is "", and `new DateTimeZone("")` throws. So a by-days save of "10" stores nothing, the cron dies at line 413 on its first row, and the list column dies at line 372 | read the site's zone from `timezone_string`, as line 59 does | medium, not executed; it rests on DateTimeZone refusing the empty name | `ContentExpirationPlugin.MisspelledZoneDisablesPlugin` | `ContentExpirationPlugin.SiteZoneEnablesPlugin` |
| class-content-expiration.php:44 | the posts-list header filter (line 44) and the pages-list one (line 48) are registered with priority 5 and no accepted-argument count, so they get the default of one argument. But `add_expires_column( $post_columns, $post_type )` at line 348 requires two | any load of the posts or pages list: WordPress calls the filter with the column array alone, and PHP 7.1 or later throws ArgumentCountError. Nothing catches it, so the request dies and the posts or pages list does not render | register both filters with 2 accepted arguments, or give `$post_type` a default, so the header is set as content-expiration.php:246-249 sets it | medium, not executed; before PHP 7.1 the call only warns and the header is set | `Columns.ClassHeaderFilterRefused` | `Columns.AddExpiresColumn` |

The class's entry points in the model (`ContentExpirationPlugin.SaveExpirationData`,
`ContentExpirationPlugin.ProcessCron`) read the zone through the corrected
`SiteZone`. The misspelled key survives only in `ZoneAsWritten` and in the
lemma that exhibits it. The class's header filter is modelled as written by
`Columns.ClassAddExpiresColumn`; the header it evidently means to set is
`Columns.AddExpiresColumn`, the older copy's filter.
