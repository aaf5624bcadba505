/** `fetch_femboy`: turns a rarity into a content item. Legendary is always the
    fixed Astolfo item; any other rarity asks the image endpoint up to five
    times and keeps the first URL not served before. The endpoint is replaced
    by the sequence of answers it would give. */
module Resolver {
  import opened Outcome
  import opened Seqs

  /** One answer of the image endpoint: a body with a `url`, or a failure
      (`raise_for_status`, an unreadable body, a missing key, no connection). */
  datatype Response = Url(url: string) | HttpError

  /** What a roll shows: the content name and its image URL. */
  datatype Content = Content(name: string, url: string)

  const LegendaryName: string := "Legendary"
  const FemboyName: string := "Femboy"
  const Astolfo: Content := Content("Astolfo", "https://i.imgur.com/8ZQZ4aP.jpg")

  /** The retry budget of the dedup loop. */
  const MaxAttempts: nat := 5

  /** What one resolution produces: its result, how many endpoint answers it
      consumed, and the set of served URLs afterwards. */
  datatype Resolution = Resolution(result: Result<Content>, consumed: nat, seen: set<string>)

  /** Answers `lo` up to `hi` all carry URLs that were served already. */
  predicate AllSeen(responses: seq<Response>, seen: set<string>, lo: nat, hi: nat)
    requires hi <= |responses|
  {
    forall j :: lo <= j < hi ==> responses[j].Url? && responses[j].url in seen
  }

  predicate IsFemboy(res: Resolution)
  {
    res.result.Success? && res.result.value.name == FemboyName
  }

  /** The retry loop from attempt `i` on. */
  function Attempts(responses: seq<Response>, seen: set<string>, i: nat): (res: Resolution)
    requires i <= MaxAttempts <= |responses|
    decreases MaxAttempts - i
    ensures i <= res.consumed <= MaxAttempts
    ensures AllSeen(responses, seen, i, if res.consumed == i then i else res.consumed - 1)
    ensures res.result.Failure? ==>
              i < res.consumed && responses[res.consumed - 1] == HttpError &&
              res.result.error == SourceError && res.seen == seen
    ensures IsFemboy(res) ==>
              i < res.consumed && responses[res.consumed - 1] == Url(res.result.value.url) &&
              res.result.value.url !in seen && res.seen == seen + {res.result.value.url}
    ensures res.result.Success? && !IsFemboy(res) ==>
              res.result.value == Astolfo && res.consumed == MaxAttempts &&
              AllSeen(responses, seen, i, MaxAttempts) && res.seen == seen
  {
    if i == MaxAttempts then Resolution(Success(Astolfo), MaxAttempts, seen)
    else match responses[i]
      case HttpError => Resolution(Failure(SourceError), i + 1, seen)
      case Url(u) =>
        if u !in seen then Resolution(Success(Content(FemboyName, u)), i + 1, seen + {u})
        else Attempts(responses, seen, i + 1)
  }

  /** `fetch_femboy(rarity)` against the served-URL set `seen`. */
  function Resolve(rarity: string, responses: seq<Response>, seen: set<string>): (res: Resolution)
    requires MaxAttempts <= |responses|
    ensures rarity == LegendaryName ==> res == Resolution(Success(Astolfo), 0, seen)
    ensures rarity != LegendaryName ==>
              1 <= res.consumed <= MaxAttempts && AllSeen(responses, seen, 0, res.consumed - 1)
    ensures res.result.Failure? ==>
              rarity != LegendaryName && responses[res.consumed - 1] == HttpError &&
              res.result.error == SourceError && res.seen == seen
    ensures IsFemboy(res) ==>
              rarity != LegendaryName && responses[res.consumed - 1] == Url(res.result.value.url) &&
              res.result.value.url !in seen && res.seen == seen + {res.result.value.url}
    ensures res.result.Success? && !IsFemboy(res) ==>
              res.result.value == Astolfo && res.seen == seen &&
              (rarity != LegendaryName ==> res.consumed == MaxAttempts && AllSeen(responses, seen, 0, MaxAttempts))
  {
    if rarity == LegendaryName then Resolution(Success(Astolfo), 0, seen)
    else Attempts(responses, seen, 0)
  }

  /** When all five answers are URLs served before, the result is Astolfo. */
  lemma AllSeenFallsBack(rarity: string, responses: seq<Response>, seen: set<string>)
    requires MaxAttempts <= |responses|
    requires AllSeen(responses, seen, 0, MaxAttempts)
    ensures Resolve(rarity, responses, seen).result == Success(Astolfo)
    ensures Resolve(rarity, responses, seen).seen == seen
  {
  }

  /** The first answer that is a failure or an unserved URL decides the result. */
  lemma FirstDecisiveAnswer(rarity: string, responses: seq<Response>, seen: set<string>, k: nat)
    requires MaxAttempts <= |responses|
    requires rarity != LegendaryName
    requires k < MaxAttempts && AllSeen(responses, seen, 0, k)
    requires responses[k].HttpError? || responses[k].url !in seen
    ensures Resolve(rarity, responses, seen).consumed == k + 1
    ensures Resolve(rarity, responses, seen).result ==
              if responses[k].HttpError? then Failure(SourceError)
              else Success(Content(FemboyName, responses[k].url))
  {
  }

  /** One `fetch_femboy` call inside a run of the bot. */
  datatype Request = Request(rarity: string, responses: seq<Response>)

  predicate WellFed(requests: seq<Request>)
  {
    forall i :: 0 <= i < |requests| ==> MaxAttempts <= |requests[i].responses|
  }

  /** A run of `fetch_femboy` calls threading `seen_urls` from one to the next;
      gives the URLs accepted as new, in order, and the final set. */
  function Session(requests: seq<Request>, seen: set<string>): (set<string>, seq<string>)
    requires WellFed(requests)
  {
    if requests == [] then (seen, [])
    else
      var last := requests[|requests| - 1];
      var (mid, urls) := Session(requests[..|requests| - 1], seen);
      var res := Resolve(last.rarity, last.responses, mid);
      (res.seen, if IsFemboy(res) then urls + [res.result.value.url] else urls)
  }

  /** No URL is accepted twice in a run, nor one served before it: the set of
      served URLs only grows, by exactly the accepted ones. */
  lemma {:induction false} SessionAcceptsDistinctUrls(requests: seq<Request>, seen: set<string>)
    requires WellFed(requests)
    ensures NoDuplicates(Session(requests, seen).1)
    ensures forall u :: u in Session(requests, seen).1 ==> u !in seen
    ensures Session(requests, seen).0 == seen + set u | u in Session(requests, seen).1
  {
    if requests != [] {
      var prefix := requests[..|requests| - 1];
      SessionAcceptsDistinctUrls(prefix, seen);
    }
  }
}
