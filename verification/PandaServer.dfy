/** The PANDA meeting place: panda/server/panda.go and the in-memory part of panda/server/storage.go, and the polling
    client of panda/client/client.go. Requests and responses are decoded values; whether a stored posting has expired is
    an input. */
module PandaServer {
  import opened Octets
  import opened Wrappers

  type Tag = Blob

  /** A posting; an empty second message means that it has not come yet. */
  datatype Posting = Posting(a: Blob, b: Blob)

  datatype Status = Received1 | Received2 | SyntaxError | TagContended | RequestRecorded | StorageError

  datatype Response = Response(status: Status, message: Blob)

  /** A request that does not decode, has the wrong version, an empty message or a bad tag is malformed. */
  datatype Request = Malformed | Post(tag: Tag, message: Blob)

  type Postings = map<Tag, Posting>

  // ---------------------------------------------------------------- the server

  /** What a post does to a posting that is there. */
  function Meet(p: Posting, message: Blob): (Posting, Response) {
    if |p.b| > 0 then
      (p, if p.a == message then Response(Received2, p.b)
          else if p.b == message then Response(Received2, p.a)
          else Response(TagContended, []))
    else if p.a == message then (p, Response(RequestRecorded, []))
    else (p.(b := message), Response(Received2, p.a))
  }

  /** OnRequest; no response means that the request failed. An expired posting is not replaced: storing under a tag that
      is present fails. */
  function Handle(s: Postings, req: Request, expired: bool): (Postings, Option<Response>) {
    match req
    case Malformed => (s, Some(Response(SyntaxError, [])))
    case Post(tag, message) =>
      if tag !in s then (s[tag := Posting(message, [])], Some(Response(Received1, [])))
      else if expired then (s, None)
      else
        var (p, r) := Meet(s[tag], message);
        (s[tag := p], Some(r))
  }

  class Panda {
    var postings: Postings

    constructor ()
      ensures postings == map[]
    {
      postings := map[];
    }

    /** Put: stores under a new tag, and fails for one that is present. */
    method Put(tag: Tag, posting: Posting) returns (ok: bool)
      modifies this
      ensures ok <==> tag !in old(postings)
      ensures postings == if ok then old(postings)[tag := posting] else old(postings)
    {
      if tag in postings {
        return false;
      }
      postings := postings[tag := posting];
      ok := true;
    }

    method Get(tag: Tag) returns (r: Option<Posting>)
      ensures r == if tag in postings then Some(postings[tag]) else None
    {
      r := if tag in postings then Some(postings[tag]) else None;
    }

    method Replace(tag: Tag, posting: Posting)
      modifies this
      ensures postings == old(postings)[tag := posting]
    {
      postings := postings[tag := posting];
    }

    method OnRequest(req: Request, expired: bool) returns (r: Option<Response>)
      modifies this
      ensures (postings, r) == Handle(old(postings), req, expired)
    {
      if req.Malformed? {
        return Some(Response(SyntaxError, []));
      }
      var stored := Get(req.tag);
      if stored.None? || expired {
        var ok := Put(req.tag, Posting(req.message, []));
        if !ok {
          return None;
        }
        return Some(Response(Received1, []));
      }
      var p := stored.value;
      if |p.b| > 0 {
        assert postings[req.tag := p] == postings;
        if p.a == req.message {
          return Some(Response(Received2, p.b));
        } else if p.b == req.message {
          return Some(Response(Received2, p.a));
        } else {
          return Some(Response(TagContended, []));
        }
      }
      if p.a == req.message {
        assert postings[req.tag := p] == postings;
        return Some(Response(RequestRecorded, []));
      }
      Replace(req.tag, p.(b := req.message));
      r := Some(Response(Received2, p.a));
    }
  }

  // ---------------------------------------------------------------- pairing

  /** The distinct messages of a sequence of posts, in the order in which they first came. */
  function Distinct(posts: seq<Blob>): seq<Blob> {
    if posts == [] then []
    else
      Joined(Distinct(posts[..|posts| - 1]), posts[|posts| - 1])
  }

  /** What the last of the posts under a tag should be answered: the first two distinct messages are partners. */
  function Partner(posts: seq<Blob>): Response
    requires posts != []
  {
    if |posts| == 1 then Response(Received1, []) else Among(Distinct(posts), posts[|posts| - 1])
  }

  function Among(d: seq<Blob>, m: Blob): Response {
    if |d| < 2 then Response(RequestRecorded, [])
    else if m == d[0] then Response(Received2, d[1])
    else if m == d[1] then Response(Received2, d[0])
    else Response(TagContended, [])
  }

  /** The posting that holds the first of the distinct messages. */
  function Held(d: seq<Blob>): Posting
    requires d != []
  {
    Posting(d[0], if |d| > 1 then d[1] else [])
  }

  function Joined(d: seq<Blob>, m: Blob): seq<Blob> { if m in d then d else d + [m] }

  lemma MeetNext(d: seq<Blob>, m: Blob)
    requires d != [] && |m| > 0 && (forall x | x in d :: |x| > 0) && (|d| > 1 ==> d[0] != d[1])
    ensures var e := Joined(d, m); Meet(Held(d), m) == (Held(e), Among(e, m)) && (|e| > 1 ==> e[0] != e[1])
  {
    if |d| > 1 {
      assert d[1] in d;
    }
  }

  /** The postings after a sequence of posts, and the response to the last. */
  function After(s: Postings, tag: Tag, posts: seq<Blob>): (Postings, Option<Response>) {
    if posts == [] then (s, None)
    else Handle(After(s, tag, posts[..|posts| - 1]).0, Post(tag, posts[|posts| - 1]), false)
  }

  lemma {:induction false} AfterPosts(s: Postings, tag: Tag, posts: seq<Blob>)
    requires tag !in s && posts != [] && forall m | m in posts :: |m| > 0
    ensures var d := Distinct(posts);
            && d != [] && (forall m | m in d :: |m| > 0) && (|d| > 1 ==> d[0] != d[1])
            && After(s, tag, posts) == (s[tag := Held(d)], Some(Partner(posts)))
    decreases |posts|
  {
    var rest, m := posts[..|posts| - 1], posts[|posts| - 1];
    assert m in posts;
    if rest == [] {
      assert Distinct(posts) == Joined([], m);
    } else {
      assert forall x | x in rest :: x in posts;
      AfterPosts(s, tag, rest);
      hide Meet, Among;
      var d := Distinct(rest);
      MeetNext(d, m);
      assert s[tag := Held(d)][tag := Held(Joined(d, m))] == s[tag := Held(Joined(d, m))];
    }
  }

  /** The meeting place pairs the first two distinct messages posted under a tag, whatever was posted in what order and
      how often: each gets the other from then on, a lone message waits, and any third is told that the tag is
      contended. */
  lemma PairsFirstTwo(s: Postings, tag: Tag, posts: seq<Blob>)
    requires tag !in s && posts != [] && forall m | m in posts :: |m| > 0
    ensures After(s, tag, posts).1 == Some(Partner(posts))
  {
    AfterPosts(s, tag, posts);
  }

  // ---------------------------------------------------------------- the polling client

  /** What came of one poll. */
  datatype Poll = Unreachable | Undecodable | Answer(response: Response)

  datatype ExchangeError = BadResponse | Syntax | Contended | Storage | Shutdown

  /** What a poll decides: nothing yet, or the outcome of the exchange. */
  function Decide(p: Poll): Option<Result<Blob, ExchangeError>> {
    match p
    case Unreachable => None
    case Undecodable => Some(Failure(BadResponse))
    case Answer(r) =>
      match r.status
      case Received1 => if |r.message| == 0 then None else Some(Success(r.message))
      case Received2 => if |r.message| == 0 then None else Some(Success(r.message))
      case SyntaxError => Some(Failure(Syntax))
      case TagContended => Some(Failure(Contended))
      case RequestRecorded => None
      case StorageError => Some(Failure(Storage))
  }

  /** A poll leaves the exchange undecided exactly when the meeting place was not reached or had no message to give yet; a message
      it gave is the outcome, and anything else ends the exchange with an error. */
  lemma UndecidedIff(p: Poll)
    ensures Decide(p).None? <==>
            p.Unreachable?
            || (p.Answer? && (p.response.status.RequestRecorded?
                              || ((p.response.status.Received1? || p.response.status.Received2?) && p.response.message == [])))
    ensures forall m :: Decide(p) == Some(Success(m)) <==>
              p.Answer? && (p.response.status.Received1? || p.response.status.Received2?) && p.response.message == m && m != []
    ensures Decide(p) == Some(Failure(Contended)) <==> p.Answer? && p.response.status.TagContended?
    ensures Decide(p) == Some(Failure(BadResponse)) <==> p.Undecodable?
  {}

  const HOUR := 3600

  /** The delay after n undecided polls, in seconds. */
  function Delay(n: nat): nat {
    if n == 0 then 1 else if 2 * Delay(n - 1) > HOUR then HOUR else 2 * Delay(n - 1)
  }

  lemma DelaySteps(n: nat)
    ensures Delay(0) == 1 && Delay(n + 1) == if Delay(n) * 2 > HOUR then HOUR else Delay(n) * 2
  {}

  function Pow2(n: nat): nat { if n == 0 then 1 else 2 * Pow2(n - 1) }

  lemma {:induction false} DelayIsCapped(n: nat)
    ensures Delay(n) == if Pow2(n) <= HOUR then Pow2(n) else HOUR
  {
    if n != 0 {
      DelayIsCapped(n - 1);
    }
  }

  /** One turn of the loop: what the reply to a poll decides. */
  method OnePoll(p: Poll) returns (d: Option<Result<Blob, ExchangeError>>)
    ensures d == Decide(p)
  {
    match p {
      case Unreachable => return None;
      case Undecodable => return Some(Failure(BadResponse));
      case Answer(response) =>
        match response.status {
          case Received1 => return if |response.message| == 0 then None else Some(Success(response.message));
          case Received2 => return if |response.message| == 0 then None else Some(Success(response.message));
          case SyntaxError => return Some(Failure(Syntax));
          case TagContended => return Some(Failure(Contended));
          case RequestRecorded => return None;
          case StorageError => return Some(Failure(Storage));
        }
    }
  }

  /** Exchange, polling until something is decided; it is shut down when the given polls run out. The delays are those
      slept between polls. */
  method Exchange(polls: seq<Poll>) returns (r: Result<Blob, ExchangeError>, delays: seq<nat>)
    ensures |delays| <= |polls| && forall i :: 0 <= i < |delays| ==> delays[i] == Delay(i) && Decide(polls[i]).None?
    ensures |delays| < |polls| ==> Decide(polls[|delays|]) == Some(r)
    ensures |delays| == |polls| ==> r == Failure(Shutdown)
  {
    hide Decide, Delay;
    var delay := 1;
    DelaySteps(0);
    delays := [];
    for i := 0 to |polls|
      invariant |delays| == i && delay == Delay(i)
      invariant forall j :: 0 <= j < i ==> delays[j] == Delay(j) && Decide(polls[j]).None?
    {
      var d := OnePoll(polls[i]);
      if d.Some? {
        return d.value, delays;
      }
      delays := delays + [delay];
      DelaySteps(i);
      delay := delay * 2;
      if delay > HOUR {
        delay := HOUR;
      }
    }
    r := Failure(Shutdown);
  }
}
