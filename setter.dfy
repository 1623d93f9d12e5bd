/** The expiration setter: the `save_post` handler that turns the meta box's
    form into a change of one post's expiration record. Guards first (nonce,
    post type, capability, autosave), each returning early with nothing
    changed; then the mode switch on 'expiration-status'. */
module Setter {
  import opened Php
  import opened Dates
  import opened Host

  /** The submitted form (`$_POST`): a field that is not set is a missing key. */
  type Form = map<string, string>

  /** The saved post as the handler sees it. */
  datatype Post = Post(postType: string)

  /** What the host answers about the request: whether `check_admin_referer`
      accepts the nonce, `current_user_can(capability, post)`, and whether
      `DOING_AUTOSAVE` is defined and true. */
  datatype Request = Request(nonceVerifies: bool, can: (string, PostId) -> bool, autosave: bool)

  /** What one save does to the post's expiration record. */
  datatype Action = Keep | Clear | Store(value: string)

  /** Every early-return guard passes. */
  predicate Authorized(postid: PostId, post: Post, req: Request, form: Form) {
    && "content-expiration-nonce" in form && req.nonceVerifies
    && (post.postType == "post" || post.postType == "page")
    && (post.postType == "post" ==> req.can("edit_post", postid))
    && (post.postType == "page" ==> req.can("edit_page", postid))
    && !req.autosave
  }

  /** The 'expiration-status' field, when set. */
  function Mode(form: Form): Option<string> {
    if "expiration-status" in form then Some(form["expiration-status"]) else None
  }

  /** A required numeric field: set, not `empty()` and `ctype_digit()`. */
  predicate DigitField(form: Form, name: string) {
    name in form && !Empty(form[name]) && CtypeDigit(form[name])
  }

  /** The by-days count as submitted, when it passes both checks: a digit
      string whose value is at least 1 and below 1825 (five years). */
  function DaysField(form: Form): (days: Option<string>)
    ensures days.Some? <==>
      && "expiration-days" in form
      && CtypeDigit(form["expiration-days"])
      && 1 <= DigitsValue(form["expiration-days"]) <= 1824
    ensures days.Some? ==> days.value == form["expiration-days"]
  {
    if "expiration-days" !in form then None
    else
      var days := form["expiration-days"];
      // the one digit string empty() refuses is "0", which the range check refuses too
      EmptyDigitsAreZero(days);
      if Empty(days) || !CtypeDigit(days) then None
      else if DigitsValue(days) <= 0 || DigitsValue(days) >= 1825 then None
      else Some(days)
  }

  /** The relative phrase handed to DateTime for a count of days. */
  function DaysText(days: string): string {
    "+ " + days + " days"
  }

  /** All five by-date fields are present and well formed. */
  predicate DateFieldsValid(form: Form) {
    && DigitField(form, "expiration-month")
    && DigitField(form, "expiration-day")
    && DigitField(form, "expiration-year")
    && DigitField(form, "expiration-hour")
    && "expiration-ampm" in form
    && (form["expiration-ampm"] == "am" || form["expiration-ampm"] == "pm")
  }

  /** The date string the by-date mode hands to DateTime, e.g. "2030-02-30 3:00:00 pm". */
  function DateText(form: Form): string
    requires DateFieldsValid(form)
  {
    form["expiration-year"] + "-" + form["expiration-month"] + "-" + form["expiration-day"]
    + " " + form["expiration-hour"] + ":00:00 " + form["expiration-ampm"]
  }

  /** The value the by-days mode stores: now plus the days, written with the
      minutes and seconds zeroed; None when the input or the date library
      refuses. */
  function ByDays(form: Form, lib: DateLib, zone: string): Option<string>
  {
    match DaysField(form)
    case None => None
    case Some(days) =>
      match Construct(lib, DaysText(days), zone)
      case None => None
      case Some(t) => Some(lib.format(t, TopOfHour, zone))
  }

  /** The value the by-date mode stores; None when a field is missing or
      malformed, or the date library refuses the composed date. */
  function ByDate(form: Form, lib: DateLib, zone: string): Option<string>
  {
    if !DateFieldsValid(form) then None
    else
      match Construct(lib, DateText(form), zone)
      case None => None
      case Some(t) => Some(lib.format(t, Exact, zone))
  }

  /** The decision one save makes for the post. */
  function Decide(postid: PostId, post: Post, req: Request, form: Form, lib: DateLib, zone: string): (a: Action)
    // fail closed: a failed guard changes nothing
    ensures !Authorized(postid, post, req, form) ==> a == Keep
    // 'nochange', a missing status and any unknown status change nothing
    ensures Mode(form) != Some("disable") && Mode(form) != Some("by-days") && Mode(form) != Some("by-date") ==>
      a == Keep
    ensures a == Clear <==> Authorized(postid, post, req, form) && Mode(form) == Some("disable")
    // by-days stores only a count of 1 to 1824 days the date library accepts
    ensures a.Store? && Mode(form) == Some("by-days") ==>
      && "expiration-days" in form
      && CtypeDigit(form["expiration-days"])
      && 1 <= DigitsValue(form["expiration-days"]) <= 1824
      && Construct(lib, DaysText(form["expiration-days"]), zone).Some?
      && a.value == lib.format(Construct(lib, DaysText(form["expiration-days"]), zone).value, TopOfHour, zone)
    // by-date stores only five well-formed fields the date library accepts
    ensures a.Store? && Mode(form) == Some("by-date") ==>
      && DateFieldsValid(form)
      && Construct(lib, DateText(form), zone).Some?
      && a.value == lib.format(Construct(lib, DateText(form), zone).value, Exact, zone)
    // and, past the guards, a well-formed request the library accepts does store
    ensures Authorized(postid, post, req, form) && Mode(form) == Some("by-days") ==>
      (a.Store? <==> DaysField(form).Some? && Construct(lib, DaysText(form["expiration-days"]), zone).Some?)
    ensures Authorized(postid, post, req, form) && Mode(form) == Some("by-date") ==>
      (a.Store? <==> DateFieldsValid(form) && Construct(lib, DateText(form), zone).Some?)
  {
    if !Authorized(postid, post, req, form) then Keep
    else if Mode(form) == Some("disable") then Clear
    else if Mode(form) == Some("by-days") then
      (match ByDays(form, lib, zone) case None => Keep case Some(v) => Store(v))
    else if Mode(form) == Some("by-date") then
      (match ByDate(form, lib, zone) case None => Keep case Some(v) => Store(v))
    else Keep
  }

  /** What an action does to the site. */
  function Effect(st: SiteState, id: PostId, a: Action): (r: SiteState)
    // the setter never changes a post's status and never sends mail
    ensures r.status == st.status && r.outbox == st.outbox
    // no other post's record changes
    ensures r.expiration - {id} == st.expiration - {id}
    ensures r.notified - {id} == st.notified - {id}
    ensures a == Keep ==> r == st
    ensures a == Clear ==> id !in r.expiration && id !in r.notified
    ensures a.Store? ==> id in r.expiration && r.expiration[id] == a.value && id !in r.notified
    // a stale notified flag never survives a change of the expiration
    ensures r.expiration != st.expiration ==> id !in r.notified
  {
    match a
    case Keep => st
    case Clear => st.(expiration := st.expiration - {id}, notified := st.notified - {id})
    case Store(v) => st.(expiration := st.expiration[id := v], notified := st.notified - {id})
  }

  /** `save_expiration_data($postid, $post, $update)` with the zone name the
      plugin's date code uses; always returns `$postid`. */
  method SaveExpirationData(site: Site, postid: PostId, post: Post, req: Request, form: Form, lib: DateLib, zone: string)
    returns (r: PostId)
    modifies site
    ensures r == postid
    ensures site.State() == Effect(old(site.State()), postid, Decide(postid, post, req, form, lib, zone))
  {
    r := postid;
    if "content-expiration-nonce" !in form || !req.nonceVerifies {
      return;
    }
    if post.postType != "post" && post.postType != "page" {
      return;
    }
    if post.postType == "post" && !req.can("edit_post", postid) {
      return;
    }
    if post.postType == "page" && !req.can("edit_page", postid) {
      return;
    }
    if req.autosave {
      return;
    }

    if "expiration-status" in form && form["expiration-status"] == "disable" {
      site.DeletePostMeta(postid, ContentExpiration);
      site.DeletePostMeta(postid, ContentExpirationNotified);
      return;
    }

    if "expiration-status" in form && form["expiration-status"] == "by-days" {
      if "expiration-days" !in form || Empty(form["expiration-days"]) || !CtypeDigit(form["expiration-days"]) {
        return;
      }
      var days := form["expiration-days"];
      if DigitsValue(days) <= 0 || DigitsValue(days) >= 1825 {
        return;
      }
      var stamp := Construct(lib, DaysText(days), zone);
      if stamp.None? {
        return;
      }
      var futureDate := lib.format(stamp.value, TopOfHour, zone);
      var added := site.AddPostMeta(postid, ContentExpiration, futureDate);
      if !added {
        site.UpdatePostMeta(postid, ContentExpiration, futureDate);
      }
      site.DeletePostMeta(postid, ContentExpirationNotified);
      return;
    }

    if "expiration-status" in form && form["expiration-status"] == "by-date" {
      if !DateFieldsValid(form) {
        return;
      }
      var stamp := Construct(lib, DateText(form), zone);
      if stamp.None? {
        return;
      }
      var futureDate := lib.format(stamp.value, Exact, zone);
      var added := site.AddPostMeta(postid, ContentExpiration, futureDate);
      if !added {
        site.UpdatePostMeta(postid, ContentExpiration, futureDate);
      }
      site.DeletePostMeta(postid, ContentExpirationNotified);
      return;
    }
    // 'nochange', or no status at all: nothing to do
  }

  /** Disabling twice is disabling once. */
  lemma DisableIsIdempotent(st: SiteState, id: PostId)
    ensures Effect(Effect(st, id, Clear), id, Clear) == Effect(st, id, Clear)
  {
  }

  /** Resubmitting the same decision changes nothing more. */
  lemma EffectIsIdempotent(st: SiteState, id: PostId, a: Action)
    ensures Effect(Effect(st, id, a), id, a) == Effect(st, id, a)
  {
  }

  /** The by-days bounds at their edges: "0", "00" and "1825" are refused,
      "1", "0001" and "1824" pass; so do not a sign, a space or an empty string. */
  lemma DaysFieldEdges()
    ensures DaysField(map["expiration-days" := "0"]).None?
    ensures DaysField(map["expiration-days" := "00"]).None?
    ensures DaysField(map["expiration-days" := "1825"]).None?
    ensures DaysField(map["expiration-days" := ""]).None?
    ensures DaysField(map["expiration-days" := "-5"]).None?
    ensures DaysField(map["expiration-days" := " 5"]).None?
    ensures DaysField(map[]).None?
    ensures DaysField(map["expiration-days" := "1"]) == Some("1")
    ensures DaysField(map["expiration-days" := "0001"]) == Some("0001")
    ensures DaysField(map["expiration-days" := "1824"]) == Some("1824")
  {
    assert !IsDigit('-') && !IsDigit(' ');
    assert DigitsValue("00") == 0 by { assert "00"[..1] == "0"; assert "0"[..0] == ""; }
    assert DigitsValue("1825") == 1825 by {
      assert "1825"[..3] == "182"; assert "182"[..2] == "18"; assert "18"[..1] == "1"; assert "1"[..0] == "";
    }
    assert DigitsValue("1824") == 1824 by {
      assert "1824"[..3] == "182"; assert "182"[..2] == "18"; assert "18"[..1] == "1"; assert "1"[..0] == "";
    }
    assert DigitsValue("0001") == 1 by {
      assert "0001"[..3] == "000"; assert "000"[..2] == "00"; assert "00"[..1] == "0"; assert "0"[..0] == "";
    }
    assert DigitsValue("1") == 1 by { assert "1"[..0] == ""; }
  }
}
