/**
 * The presentation's session identity (entrypoints/utils/sessionId.ts): a
 * module variable holding the id or null, mirrored into the page's
 * `localStorage` together with the URL encoded in the audience QR code.
 */
module SessionIdentity {
  import opened Wrappers
  import Text

  const SESSION_KEY := "sessionId"
  const QR_KEY := "qrCode"
  const QR_PREFIX := "https://presentation.noonyuu.com/app/comment/form/"

  /** `hostname + pathname.replace(/\//g, "")`: the hostname is kept as is. */
  function DeriveId(hostname: string, pathname: string): (id: string)
    ensures |hostname| <= |id| && id[..|hostname|] == hostname
    ensures '/' !in id[|hostname|..]
    ensures id[|hostname|..] == Text.RemoveAll(pathname, '/')
  {
    var id := hostname + Text.RemoveAll(pathname, '/');
    assert id[|hostname|..] == Text.RemoveAll(pathname, '/');
    id
  }

  /** The id keeps the path's other characters in their order: a slash between two segments just disappears. */
  lemma {:induction false} DeriveIdSegments(hostname: string, first: string, second: string)
    requires '/' !in first && '/' !in second
    ensures DeriveId(hostname, "/" + first + "/" + second) == hostname + first + second
  {
    var a, b := "/" + first, "/" + second;
    assert "/" + first + "/" + second == a + b;
    Text.RemoveAllConcat(a, b, '/');
    DropLeadingSlash(first);
    DropLeadingSlash(second);
    Text.ConcatAssoc(hostname, first, second);
  }

  lemma DropLeadingSlash(x: string)
    requires '/' !in x
    ensures Text.RemoveAll("/" + x, '/') == x
  {
    assert ("/" + x)[1..] == x;
    Text.RemoveAllAbsent(x, '/');
  }

  /** The URL the QR code points the audience to. */
  function QrUrl(id: string): (url: string)
    ensures |url| == |QR_PREFIX| + |id|
    ensures url[..|QR_PREFIX|] == QR_PREFIX && url[|QR_PREFIX|..] == id
  {
    QR_PREFIX + id
  }

  /** Distinct ids give distinct QR URLs. */
  lemma QrUrlInjective(a: string, b: string)
    requires QrUrl(a) == QrUrl(b)
    ensures a == b
  {
  }

  class Session {
    /** The module variable `sessionId`; None stands for null. */
    var id: Option<string>
    /** The page's `localStorage`. */
    var localStorage: map<string, string>

    /** While an id is held, storage mirrors it and its QR URL. */
    ghost predicate Valid()
      reads this
    {
      id.Some? ==>
        && SESSION_KEY in localStorage && localStorage[SESSION_KEY] == id.value
        && QR_KEY in localStorage && localStorage[QR_KEY] == QrUrl(id.value)
    }

    /** Module load: the id is null; whatever the page's storage held stays. */
    constructor (storage: map<string, string>)
      ensures Valid() && id == None && localStorage == storage
    {
      id := None;
      localStorage := storage;
    }

    /** `createSessionId`: derives the id from the location and writes both keys. */
    method Create(hostname: string, pathname: string)
      requires Valid()
      modifies this
      ensures Valid()
      ensures id == Some(DeriveId(hostname, pathname))
      ensures localStorage == old(localStorage)[SESSION_KEY := id.value][QR_KEY := QrUrl(id.value)]
    {
      var sid := DeriveId(hostname, pathname);
      id := Some(sid);
      localStorage := localStorage[SESSION_KEY := sid];
      localStorage := localStorage[QR_KEY := QrUrl(sid)];
    }

    /** `getSessionId`: the current value, null included; nothing is created lazily. */
    method Get() returns (r: Option<string>)
      ensures r == id
    {
      r := id;
    }

    /** `removeSessionId`: drops the `sessionId` key and the id; `qrCode` stays. */
    method Remove()
      requires Valid()
      modifies this
      ensures Valid() && id == None
      ensures localStorage == old(localStorage) - {SESSION_KEY}
      ensures QR_KEY in old(localStorage) ==> QR_KEY in localStorage && localStorage[QR_KEY] == old(localStorage)[QR_KEY]
    {
      localStorage := localStorage - {SESSION_KEY};
      id := None;
    }
  }

  /** Creating twice from one location yields the same id, and reads agree with it. */
  method CreateTwice(s: Session, hostname: string, pathname: string) returns (first: Option<string>, second: Option<string>)
    requires s.Valid()
    modifies s
    ensures s.Valid()
    ensures first == second == Some(DeriveId(hostname, pathname))
  {
    s.Create(hostname, pathname);
    first := s.Get();
    s.Create(hostname, pathname);
    second := s.Get();
  }
}
