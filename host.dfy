/** The part of WordPress the plugin reads and writes: the post-meta table
    (one value per post and key, which is how the plugin always writes it),
    the status of each post, and the mail it hands to `wp_mail`. */
module Host {
  import opened Php

  type PostId = int
  type UserId = int

  /** The two post-meta keys the plugin owns. */
  datatype MetaKey = ContentExpiration | ContentExpirationNotified

  /** 'Your Post Will Expire Soon!' and 'Post Expiration'. */
  datatype MailKind = ExpireSoon | Expiration

  /** One call of `wp_mail`: the notice, the author it goes to, and the post
      and title the body names. */
  datatype Mail = Mail(kind: MailKind, to: UserId, post: PostId, title: string)

  /** Everything the plugin can observe or change, as one value. */
  datatype SiteState = SiteState(
    expiration: map<PostId, string>,  // meta 'content_expiration'
    notified: map<PostId, string>,    // meta 'content_expiration_notified'
    status: map<PostId, string>,      // post_status of every existing post
    outbox: seq<Mail>)                // mail handed to wp_mail, oldest first
  {
    function Meta(key: MetaKey): map<PostId, string> {
      match key
      case ContentExpiration => expiration
      case ContentExpirationNotified => notified
    }

    function WithMeta(key: MetaKey, m: map<PostId, string>): SiteState {
      match key
      case ContentExpiration => this.(expiration := m)
      case ContentExpirationNotified => this.(notified := m)
    }

    /** `get_post_meta($id, $key, true)`: the value, or "" when there is none. */
    function MetaValue(id: PostId, key: MetaKey): string {
      if id in Meta(key) then Meta(key)[id] else ""
    }

    /** `get_post_status($id) === 'publish'` (false for a post that does not exist). */
    predicate Published(id: PostId) {
      id in status && status[id] == "publish"
    }
  }

  class Site {
    var expiration: map<PostId, string>
    var notified: map<PostId, string>
    var status: map<PostId, string>
    var outbox: seq<Mail>

    function State(): SiteState
      reads this
    {
      SiteState(expiration, notified, status, outbox)
    }

    constructor (init: SiteState)
      ensures State() == init
    {
      expiration, notified, status, outbox := init.expiration, init.notified, init.status, init.outbox;
    }

    /** `get_post_meta($id, $key, true)`. */
    function GetPostMeta(id: PostId, key: MetaKey): string
      reads this
    {
      State().MetaValue(id, key)
    }

    /** `get_post_status($id)`: None stands for PHP's false. */
    function GetPostStatus(id: PostId): Option<string>
      reads this
    {
      if id in status then Some(status[id]) else None
    }

    method SetMeta(key: MetaKey, m: map<PostId, string>)
      modifies this
      ensures State() == old(State()).WithMeta(key, m)
    {
      match key
      case ContentExpiration => expiration := m;
      case ContentExpirationNotified => notified := m;
    }

    /** `add_post_meta($id, $key, $value, true)`: refuses (returns false) when
        the post already has a value for the key. */
    method AddPostMeta(id: PostId, key: MetaKey, value: string) returns (added: bool)
      modifies this
      ensures added <==> id !in old(State()).Meta(key)
      ensures State() == if added then old(State()).WithMeta(key, old(State()).Meta(key)[id := value])
                         else old(State())
    {
      added := id !in State().Meta(key);
      if added {
        SetMeta(key, State().Meta(key)[id := value]);
      }
    }

    /** `update_post_meta($id, $key, $value)`: sets the value, adding it when absent. */
    method UpdatePostMeta(id: PostId, key: MetaKey, value: string)
      modifies this
      ensures State() == old(State()).WithMeta(key, old(State()).Meta(key)[id := value])
    {
      SetMeta(key, State().Meta(key)[id := value]);
    }

    /** `delete_post_meta($id, $key)`. */
    method DeletePostMeta(id: PostId, key: MetaKey)
      modifies this
      ensures State() == old(State()).WithMeta(key, old(State()).Meta(key) - {id})
    {
      SetMeta(key, State().Meta(key) - {id});
    }

    /** `wp_update_post(array('ID' => $id, 'post_status' => $s))`: does
        nothing for a post that does not exist. */
    method UpdatePostStatus(id: PostId, s: string)
      modifies this
      ensures State() == if id in old(status) then old(State()).(status := old(status)[id := s])
                         else old(State())
    {
      if id in status {
        status := status[id := s];
      }
    }

    /** `wp_mail(...)`: fire and forget. */
    method SendMail(m: Mail)
      modifies this
      ensures State() == old(State()).(outbox := old(outbox) + [m])
    {
      outbox := outbox + [m];
    }
  }
}
