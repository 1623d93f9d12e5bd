/** The hourly expiration sweep: for every row of the query that joins
    'content_expiration' meta with its post, two independent checks against
    the same clock. The warning: expiring within two weeks, published and not
    yet notified, mail the author and set the flag. The expiry: expired and
    still published, mail the author and set the status to 'expired'. */
module Sweep {
  import opened Php
  import opened Dates
  import opened Host

  /** One row of the query: post_id, meta_value, post_author, post_title. */
  datatype Row = Row(post: PostId, value: string, author: UserId, title: string)

  /** What one run reads from outside: the date library, the zone name it
      builds every DateTime in, the clock now and two weeks from now. */
  datatype Env = Env(lib: DateLib, zone: string, now: Stamp, soon: Stamp)

  /** The stored expiration read back as a moment; None when DateTime throws. */
  function Expiry(env: Env, row: Row): Option<Stamp> {
    Construct(env.lib, row.value, env.zone)
  }

  /** A run completes unless the zone is unknown: the DateTime for "+2 weeks"
      is built outside the try, so its exception ends the run at the first row. */
  predicate Completes(rows: seq<Row>, env: Env) {
    rows == [] || env.lib.zoneKnown(env.zone)
  }

  /** The warning check for a row whose stamp parsed as exp. */
  function Warn(st: SiteState, row: Row, exp: Stamp, env: Env): SiteState {
    if exp <= env.soon && st.Published(row.post) && Empty(st.MetaValue(row.post, ContentExpirationNotified)) then
      st.(notified := st.notified[row.post := "yes"],
          outbox := st.outbox + [Mail(ExpireSoon, row.author, row.post, row.title)])
    else st
  }

  /** The expiry check, made after the warning check and independently of it. */
  function Expire(st: SiteState, row: Row, exp: Stamp, env: Env): SiteState {
    if exp <= env.now && st.Published(row.post) then
      st.(status := st.status[row.post := "expired"],
          outbox := st.outbox + [Mail(Expiration, row.author, row.post, row.title)])
    else st
  }

  /** One iteration of the loop; an unparseable stamp skips the row. */
  function Step(st: SiteState, row: Row, env: Env): SiteState {
    match Expiry(env, row)
    case None => st
    case Some(exp) => Expire(Warn(st, row, exp, env), row, exp, env)
  }

  /** A completed run: the rows one after another. */
  function Run(st: SiteState, rows: seq<Row>, env: Env): SiteState
    decreases |rows|
  {
    if rows == [] then st else Step(Run(st, rows[..|rows| - 1], env), rows[|rows| - 1], env)
  }

  /** The loop of `process-expirations.php` and of `process_cron`. Returns
      false when the run ended on an uncaught exception. */
  method Sweep(site: Site, rows: seq<Row>, env: Env) returns (completed: bool)
    modifies site
    ensures completed == Completes(rows, env)
    ensures completed ==> site.State() == Run(old(site.State()), rows, env)
    ensures !completed ==> site.State() == old(site.State())
  {
    var i := 0;
    while i < |rows|
      invariant 0 <= i <= |rows|
      invariant i > 0 ==> env.lib.zoneKnown(env.zone)
      invariant site.State() == Run(old(site.State()), rows[..i], env)
    {
      // new DateTime('+2 weeks', ...) sits outside the try
      if !env.lib.zoneKnown(env.zone) {
        assert rows[..i] == [];
        return false;
      }
      var row := rows[i];
      assert rows[..i + 1][..i] == rows[..i];
      var parsed := Construct(env.lib, row.value, env.zone);
      if parsed.None? {
        i := i + 1;
        continue;
      }
      var exp := parsed.value;
      ghost var before := site.State();

      if exp <= env.soon && site.GetPostStatus(row.post) == Some("publish") {
        var sent := site.GetPostMeta(row.post, ContentExpirationNotified);
        if Empty(sent) {
          site.SendMail(Mail(ExpireSoon, row.author, row.post, row.title));
          var added := site.AddPostMeta(row.post, ContentExpirationNotified, "yes");
          if !added {
            site.UpdatePostMeta(row.post, ContentExpirationNotified, "yes");
          }
        }
      }
      assert site.State() == Warn(before, row, exp, env);
      ghost var warned := site.State();

      if exp <= env.now && site.GetPostStatus(row.post) == Some("publish") {
        site.SendMail(Mail(Expiration, row.author, row.post, row.title));
        site.UpdatePostStatus(row.post, "expired");
      }
      assert site.State() == Expire(warned, row, exp, env);
      i := i + 1;
    }
    assert rows[..i] == rows;
    return Completes(rows, env);
  }

  // ---------------------------------------------------------------------
  // What a run never does

  /** The sweep never writes 'content_expiration'. */
  lemma {:induction false} RunKeepsExpiration(st: SiteState, rows: seq<Row>, env: Env)
    ensures Run(st, rows, env).expiration == st.expiration
    decreases |rows|
  {
    if rows != [] {
      RunKeepsExpiration(st, rows[..|rows| - 1], env);
    }
  }

  /** Mail is only ever appended. */
  lemma {:induction false} RunExtendsOutbox(st: SiteState, rows: seq<Row>, env: Env)
    ensures |st.outbox| <= |Run(st, rows, env).outbox|
    ensures Run(st, rows, env).outbox[..|st.outbox|] == st.outbox
    decreases |rows|
  {
    if rows != [] {
      RunExtendsOutbox(st, rows[..|rows| - 1], env);
    }
  }

  // ---------------------------------------------------------------------
  // One post's view of the site

  /** The mail about post p, in order. */
  function MailsAbout(outbox: seq<Mail>, p: PostId): seq<Mail>
    decreases |outbox|
  {
    if outbox == [] then []
    else MailsAbout(outbox[..|outbox| - 1], p)
         + (if outbox[|outbox| - 1].post == p then [outbox[|outbox| - 1]] else [])
  }

  lemma MailsAboutAppend(outbox: seq<Mail>, m: Mail, p: PostId)
    ensures MailsAbout(outbox + [m], p) == MailsAbout(outbox, p) + (if m.post == p then [m] else [])
  {
    assert (outbox + [m])[..|outbox|] == outbox;
  }

  function Entry(m: map<PostId, string>, p: PostId): Option<string> {
    if p in m then Some(m[p]) else None
  }

  /** Post p's status, notified flag and mail. */
  datatype PostView = PostView(status: Option<string>, notified: Option<string>, mails: seq<Mail>)

  function View(st: SiteState, p: PostId): PostView {
    PostView(Entry(st.status, p), Entry(st.notified, p), MailsAbout(st.outbox, p))
  }

  lemma WarnOtherPost(st: SiteState, row: Row, exp: Stamp, env: Env, p: PostId)
    requires row.post != p
    ensures View(Warn(st, row, exp, env), p) == View(st, p)
  {
    if exp <= env.soon && st.Published(row.post) && Empty(st.MetaValue(row.post, ContentExpirationNotified)) {
      MailsAboutAppend(st.outbox, Mail(ExpireSoon, row.author, row.post, row.title), p);
    }
  }

  lemma ExpireOtherPost(st: SiteState, row: Row, exp: Stamp, env: Env, p: PostId)
    requires row.post != p
    ensures View(Expire(st, row, exp, env), p) == View(st, p)
  {
    if exp <= env.now && st.Published(row.post) {
      MailsAboutAppend(st.outbox, Mail(Expiration, row.author, row.post, row.title), p);
    }
  }

  /** A row about another post leaves p's view alone. */
  lemma StepOtherPost(st: SiteState, row: Row, env: Env, p: PostId)
    requires row.post != p
    ensures View(Step(st, row, env), p) == View(st, p)
  {
    match Expiry(env, row)
    case None =>
    case Some(exp) =>
      WarnOtherPost(st, row, exp, env, p);
      ExpireOtherPost(Warn(st, row, exp, env), row, exp, env, p);
  }

  /** The warning check on a row about p acts on p's view alone. */
  lemma WarnSamePost(st1: SiteState, st2: SiteState, row: Row, exp: Stamp, env: Env)
    requires View(st1, row.post) == View(st2, row.post)
    ensures View(Warn(st1, row, exp, env), row.post) == View(Warn(st2, row, exp, env), row.post)
  {
    var m := Mail(ExpireSoon, row.author, row.post, row.title);
    assert st1.Published(row.post) == st2.Published(row.post);
    assert st1.MetaValue(row.post, ContentExpirationNotified) == st2.MetaValue(row.post, ContentExpirationNotified);
    MailsAboutAppend(st1.outbox, m, row.post);
    MailsAboutAppend(st2.outbox, m, row.post);
  }

  /** The expiry check on a row about p acts on p's view alone. */
  lemma ExpireSamePost(st1: SiteState, st2: SiteState, row: Row, exp: Stamp, env: Env)
    requires View(st1, row.post) == View(st2, row.post)
    ensures View(Expire(st1, row, exp, env), row.post) == View(Expire(st2, row, exp, env), row.post)
  {
    var m := Mail(Expiration, row.author, row.post, row.title);
    assert st1.Published(row.post) == st2.Published(row.post);
    MailsAboutAppend(st1.outbox, m, row.post);
    MailsAboutAppend(st2.outbox, m, row.post);
  }

  /** A row about p acts on p's view alone. */
  lemma StepSamePost(st1: SiteState, st2: SiteState, row: Row, env: Env)
    requires View(st1, row.post) == View(st2, row.post)
    ensures View(Step(st1, row, env), row.post) == View(Step(st2, row, env), row.post)
  {
    match Expiry(env, row)
    case None =>
    case Some(exp) =>
      WarnSamePost(st1, st2, row, exp, env);
      ExpireSamePost(Warn(st1, row, exp, env), Warn(st2, row, exp, env), row, exp, env);
  }

  /** The rows about post p, in order. */
  function RowsFor(rows: seq<Row>, p: PostId): seq<Row>
    decreases |rows|
  {
    if rows == [] then []
    else RowsFor(rows[..|rows| - 1], p) + (if rows[|rows| - 1].post == p then [rows[|rows| - 1]] else [])
  }

  /** Per-item independence: what a run does to post p is what a run over
      p's rows alone does; no other row matters. */
  lemma {:induction false} RunIsolatesPosts(st: SiteState, rows: seq<Row>, env: Env, p: PostId)
    ensures View(Run(st, rows, env), p) == View(Run(st, RowsFor(rows, p), env), p)
    decreases |rows|
  {
    if rows != [] {
      var init, last := rows[..|rows| - 1], rows[|rows| - 1];
      RunIsolatesPosts(st, init, env, p);
      if last.post == p {
        var only := RowsFor(init, p) + [last];
        assert RowsFor(rows, p) == only;
        assert only[..|only| - 1] == RowsFor(init, p);
        StepSamePost(Run(st, init, env), Run(st, RowsFor(init, p), env), last, env);
      } else {
        assert RowsFor(rows, p) == RowsFor(init, p);
        StepOtherPost(Run(st, init, env), last, env, p);
      }
    }
  }

  /** A post that is not published when the run starts is left exactly as it
      was: no mail, no flag, no status change. 'expired' is terminal. */
  lemma {:induction false} RunLeavesUnpublished(st: SiteState, rows: seq<Row>, env: Env, p: PostId)
    requires !st.Published(p)
    ensures View(Run(st, rows, env), p) == View(st, p)
    decreases |rows|
  {
    if rows != [] {
      var init, last := rows[..|rows| - 1], rows[|rows| - 1];
      RunLeavesUnpublished(st, init, env, p);
      var mid := Run(st, init, env);
      if last.post == p {
        assert !mid.Published(p);
        assert Step(mid, last, env) == mid;
      } else {
        StepOtherPost(mid, last, env, p);
      }
    }
  }

  /** A run only moves a post from 'publish' to 'expired'. */
  lemma {:induction false} RunStatusTransitions(st: SiteState, rows: seq<Row>, env: Env, p: PostId)
    ensures Entry(Run(st, rows, env).status, p) == Entry(st.status, p)
         || (st.Published(p) && Entry(Run(st, rows, env).status, p) == Some("expired"))
    decreases |rows|
  {
    if rows != [] {
      RunStatusTransitions(st, rows[..|rows| - 1], env, p);
    }
  }

  // ---------------------------------------------------------------------
  // At most once

  /** The number of notices of one kind about post p. */
  function Count(outbox: seq<Mail>, p: PostId, kind: MailKind): nat
    decreases |outbox|
  {
    if outbox == [] then 0
    else Count(outbox[..|outbox| - 1], p, kind)
         + (if outbox[|outbox| - 1].post == p && outbox[|outbox| - 1].kind == kind then 1 else 0)
  }

  lemma CountAppend(outbox: seq<Mail>, m: Mail, p: PostId, kind: MailKind)
    ensures Count(outbox + [m], p, kind) == Count(outbox, p, kind) + (if m.post == p && m.kind == kind then 1 else 0)
  {
    assert (outbox + [m])[..|outbox|] == outbox;
  }

  /** 1 while post p may still be warned: its notified flag is empty. */
  function WarningsLeft(st: SiteState, p: PostId): nat {
    if Empty(st.MetaValue(p, ContentExpirationNotified)) then 1 else 0
  }

  /** 1 while post p may still be expired: it is published. */
  function ExpiriesLeft(st: SiteState, p: PostId): nat {
    if st.Published(p) then 1 else 0
  }

  lemma WarnConserves(st: SiteState, row: Row, exp: Stamp, env: Env, p: PostId)
    ensures Count(Warn(st, row, exp, env).outbox, p, ExpireSoon) + WarningsLeft(Warn(st, row, exp, env), p)
         == Count(st.outbox, p, ExpireSoon) + WarningsLeft(st, p)
    ensures Count(Warn(st, row, exp, env).outbox, p, Expiration) == Count(st.outbox, p, Expiration)
    ensures ExpiriesLeft(Warn(st, row, exp, env), p) == ExpiriesLeft(st, p)
  {
    var w := Warn(st, row, exp, env);
    if exp <= env.soon && st.Published(row.post) && Empty(st.MetaValue(row.post, ContentExpirationNotified)) {
      var m := Mail(ExpireSoon, row.author, row.post, row.title);
      assert w.outbox == st.outbox + [m];
      CountAppend(st.outbox, m, p, ExpireSoon);
      CountAppend(st.outbox, m, p, Expiration);
      assert WarningsLeft(w, p) == if p == row.post then 0 else WarningsLeft(st, p);
    } else {
      assert w == st;
    }
  }

  lemma ExpireConserves(st: SiteState, row: Row, exp: Stamp, env: Env, p: PostId)
    ensures Count(Expire(st, row, exp, env).outbox, p, Expiration) + ExpiriesLeft(Expire(st, row, exp, env), p)
         == Count(st.outbox, p, Expiration) + ExpiriesLeft(st, p)
    ensures Count(Expire(st, row, exp, env).outbox, p, ExpireSoon) == Count(st.outbox, p, ExpireSoon)
    ensures WarningsLeft(Expire(st, row, exp, env), p) == WarningsLeft(st, p)
  {
    var e := Expire(st, row, exp, env);
    if exp <= env.now && st.Published(row.post) {
      var m := Mail(Expiration, row.author, row.post, row.title);
      assert e.outbox == st.outbox + [m];
      CountAppend(st.outbox, m, p, ExpireSoon);
      CountAppend(st.outbox, m, p, Expiration);
      assert ExpiriesLeft(e, p) == if p == row.post then 0 else ExpiriesLeft(st, p);
    } else {
      assert e == st;
    }
  }

  lemma StepConserves(st: SiteState, row: Row, env: Env, p: PostId)
    ensures Count(Step(st, row, env).outbox, p, ExpireSoon) + WarningsLeft(Step(st, row, env), p)
         == Count(st.outbox, p, ExpireSoon) + WarningsLeft(st, p)
    ensures Count(Step(st, row, env).outbox, p, Expiration) + ExpiriesLeft(Step(st, row, env), p)
         == Count(st.outbox, p, Expiration) + ExpiriesLeft(st, p)
  {
    match Expiry(env, row)
    case None =>
    case Some(exp) =>
      WarnConserves(st, row, exp, env, p);
      ExpireConserves(Warn(st, row, exp, env), row, exp, env, p);
  }

  /** A warning is sent at most once per notified lifetime, and the only way
      to spend it is to send the warning: every warning about p in a run
      turned p's flag from empty to set. The same holds of the expiry notice
      and the publish-to-expired transition. */
  lemma {:induction false} RunSendsEachNoticeAtMostOnce(st: SiteState, rows: seq<Row>, env: Env, p: PostId)
    ensures Count(Run(st, rows, env).outbox, p, ExpireSoon) + WarningsLeft(Run(st, rows, env), p)
         == Count(st.outbox, p, ExpireSoon) + WarningsLeft(st, p)
    ensures Count(Run(st, rows, env).outbox, p, Expiration) + ExpiriesLeft(Run(st, rows, env), p)
         == Count(st.outbox, p, Expiration) + ExpiriesLeft(st, p)
    ensures Count(Run(st, rows, env).outbox, p, ExpireSoon) <= Count(st.outbox, p, ExpireSoon) + WarningsLeft(st, p)
    ensures Count(Run(st, rows, env).outbox, p, Expiration) <= Count(st.outbox, p, Expiration) + ExpiriesLeft(st, p)
    decreases |rows|
  {
    if rows != [] {
      var init := rows[..|rows| - 1];
      RunSendsEachNoticeAtMostOnce(st, init, env, p);
      StepConserves(Run(st, init, env), rows[|rows| - 1], env, p);
    }
  }

  // ---------------------------------------------------------------------
  // Rerunning changes nothing

  /** Neither check would fire for this row on this state. */
  predicate Quiet(st: SiteState, row: Row, env: Env) {
    match Expiry(env, row)
    case None => true
    case Some(exp) =>
      && !(exp <= env.soon && st.Published(row.post) && Empty(st.MetaValue(row.post, ContentExpirationNotified)))
      && !(exp <= env.now && st.Published(row.post))
  }

  lemma QuietStep(st: SiteState, row: Row, env: Env)
    requires Quiet(st, row, env)
    ensures Step(st, row, env) == st
  {
  }

  /** After a row has been processed it is quiet. */
  lemma StepQuiets(st: SiteState, row: Row, env: Env)
    ensures Quiet(Step(st, row, env), row, env)
  {
  }

  /** Quiet survives any later row: a post never goes back to 'publish' and
      a set flag is never cleared. */
  lemma QuietStays(st: SiteState, row: Row, other: Row, env: Env)
    requires Quiet(st, row, env)
    ensures Quiet(Step(st, other, env), row, env)
  {
  }

  lemma {:induction false} RunQuiets(st: SiteState, rows: seq<Row>, env: Env, k: nat)
    requires k < |rows|
    ensures Quiet(Run(st, rows, env), rows[k], env)
    decreases |rows|
  {
    var init, last := rows[..|rows| - 1], rows[|rows| - 1];
    if k == |rows| - 1 {
      StepQuiets(Run(st, init, env), last, env);
    } else {
      RunQuiets(st, init, env, k);
      QuietStays(Run(st, init, env), rows[k], last, env);
    }
  }

  lemma {:induction false} QuietRun(st: SiteState, rows: seq<Row>, env: Env)
    requires forall k :: 0 <= k < |rows| ==> Quiet(st, rows[k], env)
    ensures Run(st, rows, env) == st
    decreases |rows|
  {
    if rows != [] {
      var init := rows[..|rows| - 1];
      QuietRun(st, init, env);
      QuietStep(st, rows[|rows| - 1], env);
    }
  }

  /** A second run on the same rows at the same time sends no mail and makes
      no change: the warning is not repeated, nor the expiry. */
  lemma RunIsIdempotent(st: SiteState, rows: seq<Row>, env: Env)
    ensures Run(Run(st, rows, env), rows, env) == Run(st, rows, env)
  {
    var after := Run(st, rows, env);
    forall k | 0 <= k < |rows|
      ensures Quiet(after, rows[k], env)
    {
      RunQuiets(st, rows, env, k);
    }
    QuietRun(after, rows, env);
  }

  // ---------------------------------------------------------------------
  // Due posts are handled

  /** A post with a row whose stamp parses and falls within two weeks of now
      has been warned by the end of the run unless it is no longer published:
      its flag is set, and exactly the one warning it still had left (none
      when its flag was already set) has been sent about it. */
  lemma RunWarnsDuePost(st: SiteState, rows: seq<Row>, env: Env, k: nat, exp: Stamp)
    requires k < |rows| && Expiry(env, rows[k]) == Some(exp) && exp <= env.soon
    ensures Run(st, rows, env).Published(rows[k].post) ==>
      && !Empty(Run(st, rows, env).MetaValue(rows[k].post, ContentExpirationNotified))
      && Count(Run(st, rows, env).outbox, rows[k].post, ExpireSoon)
         == Count(st.outbox, rows[k].post, ExpireSoon) + WarningsLeft(st, rows[k].post)
    // a post the same run expires was warned first, when now comes before now + 2 weeks
    ensures st.Published(rows[k].post) && env.now <= env.soon ==>
      && !Empty(Run(st, rows, env).MetaValue(rows[k].post, ContentExpirationNotified))
      && Count(Run(st, rows, env).outbox, rows[k].post, ExpireSoon)
         == Count(st.outbox, rows[k].post, ExpireSoon) + WarningsLeft(st, rows[k].post)
  {
    var p := rows[k].post;
    RunQuiets(st, rows, env, k);
    RunSendsEachNoticeAtMostOnce(st, rows, env, p);
    if st.Published(p) && env.now <= env.soon && !Run(st, rows, env).Published(p) {
      RunExpiresOnlyWarned(st, rows, env, p);
    }
  }

  /** A run never clears a set notified flag. */
  lemma {:induction false} RunKeepsFlag(st: SiteState, rows: seq<Row>, env: Env, p: PostId)
    requires !Empty(st.MetaValue(p, ContentExpirationNotified))
    ensures !Empty(Run(st, rows, env).MetaValue(p, ContentExpirationNotified))
    decreases |rows|
  {
    if rows != [] {
      RunKeepsFlag(st, rows[..|rows| - 1], env, p);
    }
  }

  /** When now comes before now + 2 weeks, the row that expires a post has
      warned it just before, unless it was warned already. */
  lemma StepExpiresOnlyWarned(st: SiteState, row: Row, env: Env, p: PostId)
    requires st.Published(p) && !Step(st, row, env).Published(p) && env.now <= env.soon
    ensures !Empty(Step(st, row, env).MetaValue(p, ContentExpirationNotified))
  {
  }

  /** When now comes before now + 2 weeks, a post a run takes off 'publish'
      ends the run with its notified flag set. */
  lemma {:induction false} RunExpiresOnlyWarned(st: SiteState, rows: seq<Row>, env: Env, p: PostId)
    requires st.Published(p) && !Run(st, rows, env).Published(p) && env.now <= env.soon
    ensures !Empty(Run(st, rows, env).MetaValue(p, ContentExpirationNotified))
    decreases |rows|
  {
    var init, last := rows[..|rows| - 1], rows[|rows| - 1];
    var mid := Run(st, init, env);
    if mid.Published(p) {
      StepExpiresOnlyWarned(mid, last, env, p);
    } else {
      RunExpiresOnlyWarned(st, init, env, p);
      RunKeepsFlag(mid, [last], env, p);
      assert [last][..0] == [];
    }
  }

  /** A post published when the run starts, with a row whose stamp parses
      and is at or before now, ends the run 'expired' with exactly one
      'Post Expiration' notice sent about it. */
  lemma RunExpiresDuePost(st: SiteState, rows: seq<Row>, env: Env, k: nat, exp: Stamp)
    requires k < |rows| && Expiry(env, rows[k]) == Some(exp) && exp <= env.now
    requires st.Published(rows[k].post)
    ensures Entry(Run(st, rows, env).status, rows[k].post) == Some("expired")
    ensures Count(Run(st, rows, env).outbox, rows[k].post, Expiration) == Count(st.outbox, rows[k].post, Expiration) + 1
  {
    var p := rows[k].post;
    RunQuiets(st, rows, env, k);
    assert !Run(st, rows, env).Published(p);
    RunStatusTransitions(st, rows, env, p);
    RunSendsEachNoticeAtMostOnce(st, rows, env, p);
  }

  /** Neither check can fire for this row: its stamp does not parse, or it
      lies beyond both now and now + 2 weeks. */
  predicate NotDue(row: Row, env: Env) {
    Expiry(env, row).None? || (env.soon < Expiry(env, row).value && env.now < Expiry(env, row).value)
  }

  /** The checks fire only for a due post: a post none of whose rows is due
      gets no warning, no expiry notice, no flag and no status change. */
  lemma {:induction false} RunLeavesUndue(st: SiteState, rows: seq<Row>, env: Env, p: PostId)
    requires forall k :: 0 <= k < |rows| && rows[k].post == p ==> NotDue(rows[k], env)
    ensures View(Run(st, rows, env), p) == View(st, p)
    decreases |rows|
  {
    if rows != [] {
      var init, last := rows[..|rows| - 1], rows[|rows| - 1];
      assert forall k :: 0 <= k < |init| && init[k].post == p ==> NotDue(init[k], env) by {
        forall k | 0 <= k < |init| && init[k].post == p
          ensures NotDue(init[k], env)
        {
          assert init[k] == rows[k];
        }
      }
      RunLeavesUndue(st, init, env, p);
      var mid := Run(st, init, env);
      if last.post == p {
        assert NotDue(rows[|rows| - 1], env);
        assert Step(mid, last, env) == mid;
      } else {
        StepOtherPost(mid, last, env, p);
      }
    }
  }

  // ---------------------------------------------------------------------
  // Bad rows

  /** A row whose stored stamp does not parse is skipped and does not stop
      the rows after it: the run is the run without that row. */
  lemma {:induction false} RunSkipsUnparseable(st: SiteState, before: seq<Row>, bad: Row, after: seq<Row>, env: Env)
    requires Expiry(env, bad) == None
    ensures Run(st, before + [bad] + after, env) == Run(st, before + after, env)
    decreases |after|
  {
    if after == [] {
      assert before + [bad] + after == before + [bad];
      assert (before + [bad])[..|before|] == before;
      assert before + after == before;
    } else {
      var init, last := after[..|after| - 1], after[|after| - 1];
      RunSkipsUnparseable(st, before, bad, init, env);
      var all := before + [bad] + after;
      assert all[..|all| - 1] == before + [bad] + init;
      var rest := before + after;
      assert rest[..|rest| - 1] == before + init;
    }
  }

  // ---------------------------------------------------------------------
  // The boundary

  /** A published, unwarned post whose stamp is exactly now gets both notices
      in one run, warning first, and is expired. */
  lemma BothNoticesAtBoundary(st: SiteState, row: Row, env: Env)
    requires st.Published(row.post) && Empty(st.MetaValue(row.post, ContentExpirationNotified))
    requires Expiry(env, row) == Some(env.now) && env.now <= env.soon
    ensures Run(st, [row], env).outbox
         == st.outbox + [Mail(ExpireSoon, row.author, row.post, row.title), Mail(Expiration, row.author, row.post, row.title)]
    ensures Run(st, [row], env).status == st.status[row.post := "expired"]
    ensures Run(st, [row], env).notified == st.notified[row.post := "yes"]
  {
    assert [row][..0] == [];
  }
}
