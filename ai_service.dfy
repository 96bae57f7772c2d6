/** The notification jobs of the queue worker: the dispatch from a job's type string to
    its handler, the push sender that posts tokens to the push endpoint in batches of
    100, the per-user de-duplication of the plan-based broadcasts, the guards of the
    comment and reaction notifications, and the batched news update.
    Database queries, the HTTP endpoint and timers are parameters or events: a handler
    receives what its queries returned, and produces the records it creates, the
    requests it posts and the waits it performs. */
module AiService {
  import opened Wrappers

  // ---------------------------------------------------------------------------
  // addToAIQueue
  // ---------------------------------------------------------------------------

  datatype Handler =
    | SendPushNoti
    | SendPushNotiAnalysis
    | SendPushNotiToTrialUser
    | SendPushNotiToFreeUser
    | SendPushNotiComment
    | SendPushNotiReaction
    | UpdateNews

  const InvalidOperation: string := "Invalid operation type"

  /** The job type string that selects each handler. */
  function OperationType(h: Handler): string
  {
    match h
    case SendPushNoti => "SEND-PUSH-NOTIFICATION"
    case SendPushNotiAnalysis => "SEND-PUSH-NOTIFICATION-ANALYSIS"
    case SendPushNotiToTrialUser => "SEND-PUSH-NOTIFICATION-TO-TRIAL-USER"
    case SendPushNotiToFreeUser => "SEND-PUSH-NOTIFICATION-TO-FREE-USER"
    case SendPushNotiComment => "SEND-PUSH-NOTIFICATION-COMMENT"
    case SendPushNotiReaction => "SEND-PUSH-NOTIFICATION-REACTION"
    case UpdateNews => "UPDATE-NEWS"
  }

  const Handlers: seq<Handler> := [
    SendPushNoti, SendPushNotiAnalysis, SendPushNotiToTrialUser, SendPushNotiToFreeUser,
    SendPushNotiComment, SendPushNotiReaction, UpdateNews]

  /** `addToAIQueue(operationType)`: the handler for one of the seven job types; any
      other string throws `Error("Invalid operation type")`. */
  function AddToAIQueue(operationType: string): (r: Result<Handler>)
    ensures r.Ok? ==> OperationType(r.value) == operationType
    ensures r.Err? ==> r.error == InvalidOperation &&
                       forall h :: OperationType(h) != operationType
  {
    match operationType
    case "SEND-PUSH-NOTIFICATION" => Ok(SendPushNoti)
    case "SEND-PUSH-NOTIFICATION-ANALYSIS" => Ok(SendPushNotiAnalysis)
    case "SEND-PUSH-NOTIFICATION-TO-TRIAL-USER" => Ok(SendPushNotiToTrialUser)
    case "SEND-PUSH-NOTIFICATION-TO-FREE-USER" => Ok(SendPushNotiToFreeUser)
    case "SEND-PUSH-NOTIFICATION-COMMENT" => Ok(SendPushNotiComment)
    case "SEND-PUSH-NOTIFICATION-REACTION" => Ok(SendPushNotiReaction)
    case "UPDATE-NEWS" => Ok(UpdateNews)
    case _ => Err(InvalidOperation)
  }

  /** Every handler is reachable through its own type string, and distinct handlers
      have distinct strings: the dispatch is a bijection between the seven strings and
      the seven handlers. */
  lemma DispatchRoundTrip(h: Handler)
    ensures AddToAIQueue(OperationType(h)) == Ok(h)
    ensures forall g :: OperationType(g) == OperationType(h) ==> g == h
  {
  }

  /** Exactly seven strings are accepted. */
  lemma DispatchAcceptsExactly(operationType: string)
    ensures AddToAIQueue(operationType).Ok? <==>
              exists k :: 0 <= k < |Handlers| && OperationType(Handlers[k]) == operationType
  {
    if AddToAIQueue(operationType).Ok? {
      var h := AddToAIQueue(operationType).value;
      assert h == Handlers[HandlerIndex(h)];
    }
  }

  function HandlerIndex(h: Handler): (k: nat)
    ensures k < |Handlers| && Handlers[k] == h
  {
    match h
    case SendPushNoti => 0
    case SendPushNotiAnalysis => 1
    case SendPushNotiToTrialUser => 2
    case SendPushNotiToFreeUser => 3
    case SendPushNotiComment => 4
    case SendPushNotiReaction => 5
    case UpdateNews => 6
  }

  // ---------------------------------------------------------------------------
  // sendPushNotificationsInBatches
  // ---------------------------------------------------------------------------

  const BatchSize: nat := 100

  /** What the push endpoint does with one post: accept it, answer with an error
      status (the error is logged and the loop goes on), or fail without a response,
      in which case reading `error.response.data` in the handler throws and the
      remaining batches are never sent. */
  datatype PostOutcome = Delivered | Rejected | NoResponse

  /** An observable step of the sender: a post of one batch, or the one-second wait. */
  datatype PushEvent = Post(to: seq<string>, title: string, body: string) | Wait

  datatype PushRun = PushRun(events: seq<PushEvent>, aborted: bool)

  /** Sending the batches `batches`, the first of which is batch number `n`; `post` says
      how the endpoint answers each batch. */
  function Deliver(batches: seq<seq<string>>, n: nat, title: string, body: string,
                   post: (nat, seq<string>) -> PostOutcome): PushRun
    decreases |batches|
  {
    if batches == [] then PushRun([], false)
    else
      var sent := [Post(batches[0], title, body)];
      if post(n, batches[0]).NoResponse? then PushRun(sent, true)
      else
        var wait := if |batches| > 1 then [Wait] else [];
        var rest := Deliver(batches[1..], n + 1, title, body, post);
        PushRun(sent + wait + rest.events, rest.aborted)
  }

  /** `sendPushNotificationsInBatches(title, body, tokens)`. */
  function Sending(tokens: seq<string>, title: string, body: string,
                   post: (nat, seq<string>) -> PostOutcome): PushRun
  {
    Deliver(Chunks(tokens, BatchSize), 0, title, body, post)
  }

  /** The token lists posted, in order. */
  function Posted(events: seq<PushEvent>): seq<seq<string>>
  {
    if events == [] then []
    else (if events[0].Post? then [events[0].to] else []) + Posted(events[1..])
  }

  lemma {:induction false} PostedConcat(a: seq<PushEvent>, b: seq<PushEvent>)
    ensures Posted(a + b) == Posted(a) + Posted(b)
    decreases |a|
  {
    if a == [] {
      assert a + b == b;
    } else {
      assert (a + b)[0] == a[0];
      assert (a + b)[1..] == a[1..] + b;
      PostedConcat(a[1..], b);
    }
  }

  /** Posts and waits alternate, starting and ending with a post: a wait only ever
      separates two batches, and none follows the last one. */
  predicate Alternating(events: seq<PushEvent>)
  {
    (forall k :: 0 <= k < |events| ==> (events[k].Wait? <==> k % 2 == 1)) &&
    (events != [] ==> |events| % 2 == 1)
  }

  lemma PostedStep(batch: seq<string>, title: string, body: string, wait: seq<PushEvent>, rest: seq<PushEvent>)
    requires wait == [] || wait == [Wait]
    ensures Posted([Post(batch, title, body)] + wait + rest) == [batch] + Posted(rest)
  {
    var sent := [Post(batch, title, body)];
    assert Posted(sent) == [batch] by { assert sent[1..] == []; }
    assert Posted(wait) == [] by { if wait != [] { assert wait[1..] == []; } }
    PostedConcat(sent + wait, rest);
    PostedConcat(sent, wait);
  }

  /** A batch that gets no response stops the sender. */
  lemma {:induction false} NoResponseAborts(batches: seq<seq<string>>, n: nat, title: string, body: string,
                                            post: (nat, seq<string>) -> PostOutcome, k: nat)
    requires k < |batches| && post(n + k, batches[k]).NoResponse?
    ensures Deliver(batches, n, title, body, post).aborted
    decreases |batches|
  {
    if k > 0 && !post(n, batches[0]).NoResponse? {
      assert batches[1..][k - 1] == batches[k];
      NoResponseAborts(batches[1..], n + 1, title, body, post, k - 1);
    }
  }

  /** Rejected batches do not stop the sender: without a batch that gets no response,
      every batch is posted, in order. */
  lemma {:induction false} DeliverPostsAll(batches: seq<seq<string>>, n: nat, title: string, body: string,
                                           post: (nat, seq<string>) -> PostOutcome)
    requires !Deliver(batches, n, title, body, post).aborted
    ensures Posted(Deliver(batches, n, title, body, post).events) == batches
    decreases |batches|
  {
    if batches != [] {
      var tail := batches[1..];
      var wait := if |batches| > 1 then [Wait] else [];
      var rest := Deliver(tail, n + 1, title, body, post);
      DeliverPostsAll(tail, n + 1, title, body, post);
      PostedStep(batches[0], title, body, wait, rest.events);
      assert batches == [batches[0]] + tail;
    }
  }

  /** An aborted run stopped at the first batch without a response, having posted the
      batches up to and including that one. */
  lemma {:induction false} DeliverStopsAt(batches: seq<seq<string>>, n: nat, title: string, body: string,
                                          post: (nat, seq<string>) -> PostOutcome) returns (k: nat)
    requires Deliver(batches, n, title, body, post).aborted
    ensures k < |batches| && post(n + k, batches[k]).NoResponse?
    ensures forall j :: 0 <= j < k ==> !post(n + j, batches[j]).NoResponse?
    ensures Posted(Deliver(batches, n, title, body, post).events) == batches[..k + 1]
    decreases |batches|
  {
    var sent := [Post(batches[0], title, body)];
    if post(n, batches[0]).NoResponse? {
      k := 0;
      PostedStep(batches[0], title, body, [], []);
      assert sent + [] + [] == sent;
      assert batches[..1] == [batches[0]];
    } else {
      var tail := batches[1..];
      var wait := if |batches| > 1 then [Wait] else [];
      var rest := Deliver(tail, n + 1, title, body, post);
      var k' := DeliverStopsAt(tail, n + 1, title, body, post);
      k := k' + 1;
      PostedStep(batches[0], title, body, wait, rest.events);
      assert batches[k] == tail[k'] && n + k == n + 1 + k';
      forall j | 0 <= j < k ensures !post(n + j, batches[j]).NoResponse? {
        if j > 0 { assert batches[j] == tail[j - 1]; }
      }
      assert batches[..k + 1] == [batches[0]] + tail[..k' + 1];
    }
  }

  lemma {:induction false} DeliverAlternates(batches: seq<seq<string>>, n: nat, title: string, body: string,
                                             post: (nat, seq<string>) -> PostOutcome)
    ensures Alternating(Deliver(batches, n, title, body, post).events)
    ensures batches == [] <==> Deliver(batches, n, title, body, post).events == []
    decreases |batches|
  {
    if batches != [] && !post(n, batches[0]).NoResponse? {
      var tail := batches[1..];
      DeliverAlternates(tail, n + 1, title, body, post);
      var rest := Deliver(tail, n + 1, title, body, post).events;
      var events := Deliver(batches, n, title, body, post).events;
      if |batches| > 1 {
        assert events == [Post(batches[0], title, body), Wait] + rest;
        forall k | 0 <= k < |events| ensures events[k].Wait? <==> k % 2 == 1 {
          if k >= 2 { assert events[k] == rest[k - 2]; }
        }
      } else {
        assert tail == [];
      }
    }
  }

  /** Every posted batch holds between 1 and 100 tokens. */
  lemma SendingBounded(tokens: seq<string>, title: string, body: string,
                       post: (nat, seq<string>) -> PostOutcome)
    ensures var ps := Posted(Sending(tokens, title, body, post).events);
      forall k :: 0 <= k < |ps| ==> 1 <= |ps[k]| <= BatchSize
  {
    var bs := Chunks(tokens, BatchSize);
    var ps := Posted(Sending(tokens, title, body, post).events);
    ChunksBounded(tokens, BatchSize);
    if Sending(tokens, title, body, post).aborted {
      var k := DeliverStopsAt(bs, 0, title, body, post);
      assert forall i :: 0 <= i < |ps| ==> ps[i] == bs[i];
    } else {
      DeliverPostsAll(bs, 0, title, body, post);
    }
  }

  /** Unless a post fails without a response, the batches are the tokens in order and
      there are ceil(n / 100) of them. */
  lemma SendingCoversTokens(tokens: seq<string>, title: string, body: string,
                            post: (nat, seq<string>) -> PostOutcome)
    requires !Sending(tokens, title, body, post).aborted
    ensures var ps := Posted(Sending(tokens, title, body, post).events);
      Concat(ps) == tokens && |ps| * BatchSize >= |tokens| && |ps| * BatchSize < |tokens| + BatchSize
  {
    DeliverPostsAll(Chunks(tokens, BatchSize), 0, title, body, post);
    ChunksConcat(tokens, BatchSize);
    ChunksCount(tokens, BatchSize);
  }

  /** Some batch of `batches` (numbered from 0) gets no response. */
  predicate Unanswered(batches: seq<seq<string>>, post: (nat, seq<string>) -> PostOutcome)
  {
    exists k: nat :: k < |batches| && post(k, batches[k]).NoResponse?
  }

  /** The sender stops early exactly when some batch gets no response; rejected batches
      are logged and the loop goes on. */
  lemma SendingAbortsIff(tokens: seq<string>, title: string, body: string,
                         post: (nat, seq<string>) -> PostOutcome)
    ensures Sending(tokens, title, body, post).aborted <==> Unanswered(Chunks(tokens, BatchSize), post)
  {
    var bs := Chunks(tokens, BatchSize);
    var run := Sending(tokens, title, body, post);
    assert run == Deliver(bs, 0, title, body, post);
    if run.aborted {
      var k := DeliverStopsAt(bs, 0, title, body, post);
      assert k < |bs| && post(k, bs[k]).NoResponse?;
      assert Unanswered(bs, post);
    } else if Unanswered(bs, post) {
      var k: nat :| k < |bs| && post(k, bs[k]).NoResponse?;
      assert post(0 + k, bs[k]).NoResponse?;
      NoResponseAborts(bs, 0, title, body, post, k);
      assert false;
    }
  }

  /** An empty token list sends nothing; otherwise posts and one-second waits alternate,
      so a wait only separates two batches and never follows the last one. */
  lemma SendingWaitsBetween(tokens: seq<string>, title: string, body: string,
                            post: (nat, seq<string>) -> PostOutcome)
    ensures tokens == [] ==> Sending(tokens, title, body, post) == PushRun([], false)
    ensures tokens != [] ==> Sending(tokens, title, body, post).events != []
    ensures Alternating(Sending(tokens, title, body, post).events)
  {
    DeliverAlternates(Chunks(tokens, BatchSize), 0, title, body, post);
  }

  function Then(events: seq<PushEvent>, run: PushRun): PushRun
  {
    PushRun(events + run.events, run.aborted)
  }

  /** `sendPushNotificationsInBatches`: for `i` from 0 in steps of 100, post
      `tokens.slice(i, i + 100)`, and wait unless it was the last batch. `number` is the
      batch number `i / batchSize` that the endpoint's answer may depend on. */
  method SendPushNotificationsInBatches(title: string, body: string, tokens: seq<string>,
                                        post: (nat, seq<string>) -> PostOutcome)
    returns (run: PushRun)
    ensures run == Sending(tokens, title, body, post)
  {
    var events: seq<PushEvent> := [];
    var i, number := 0, 0;
    ChunksFromStart(tokens, BatchSize);
    while i < |tokens|
      invariant Sending(tokens, title, body, post) ==
                Then(events, Deliver(Chunks(From(tokens, i), BatchSize), number, title, body, post))
    {
      var end := if i + BatchSize < |tokens| then i + BatchSize else |tokens|;
      var batch := tokens[i..end];
      ChunksFrom(tokens, i, BatchSize);
      var outcome := post(number, batch);
      events := events + [Post(batch, title, body)];
      if outcome.NoResponse? {
        return PushRun(events, true);
      }
      if i + BatchSize < |tokens| {
        events := events + [Wait];
      }
      i, number := i + BatchSize, number + 1;
    }
    return PushRun(events, false);
  }

  // ---------------------------------------------------------------------------
  // sendPushNotiToTrialUser / sendPushNotiToFreeUser: one record per user
  // ---------------------------------------------------------------------------

  /** A row of the push token table. */
  datatype PushToken = PushToken(userId: string, token: string)

  /** A notification record as the handlers create it. */
  datatype Notification = Notification(
    userId: Option<string>,
    companyName: string,
    message: string,
    logo: string,
    kind: string,
    entityId: Option<string>)

  function UserIds(pushTokens: seq<PushToken>): (r: seq<string>)
    ensures |r| == |pushTokens| && forall k :: 0 <= k < |r| ==> r[k] == pushTokens[k].userId
  {
    if pushTokens == [] then []
    else UserIds(pushTokens[..|pushTokens| - 1]) + [pushTokens[|pushTokens| - 1].userId]
  }

  function TokensOf(pushTokens: seq<PushToken>): (r: seq<string>)
    ensures |r| == |pushTokens| && forall k :: 0 <= k < |r| ==> r[k] == pushTokens[k].token
  {
    if pushTokens == [] then []
    else TokensOf(pushTokens[..|pushTokens| - 1]) + [pushTokens[|pushTokens| - 1].token]
  }

  /** The record queued for one user of a broadcast. */
  function PushRecord(userId: string, title: string, body: string): Notification
  {
    Notification(Some(userId), title, body, "", "push", None)
  }

  function RecordsFor(ids: seq<string>, title: string, body: string): (r: seq<Notification>)
    ensures |r| == |ids| && forall k :: 0 <= k < |ids| ==> r[k] == PushRecord(ids[k], title, body)
  {
    if ids == [] then []
    else RecordsFor(ids[..|ids| - 1], title, body) + [PushRecord(ids[|ids| - 1], title, body)]
  }

  lemma RecordsForAppend(ids: seq<string>, u: string, title: string, body: string)
    ensures RecordsFor(ids + [u], title, body) == RecordsFor(ids, title, body) + [PushRecord(u, title, body)]
  {
    assert (ids + [u])[..|ids|] == ids;
  }

  lemma PrefixStep(pushTokens: seq<PushToken>, k: nat)
    requires k < |pushTokens|
    ensures UserIds(pushTokens[..k + 1]) == UserIds(pushTokens[..k]) + [pushTokens[k].userId]
    ensures TokensOf(pushTokens[..k + 1]) == TokensOf(pushTokens[..k]) + [pushTokens[k].token]
  {
    assert pushTokens[..k + 1][..k] == pushTokens[..k];
  }

  /** The loop over the push tokens: a user's first token adds the user to `ids` and
      queues one record for them; every token goes into `tokens`. */
  method CollectRecipients(pushTokens: seq<PushToken>, title: string, body: string)
    returns (ids: seq<string>, tokens: seq<string>, records: seq<Notification>)
    ensures ids == Distinct(UserIds(pushTokens))
    ensures tokens == TokensOf(pushTokens)
    ensures records == RecordsFor(ids, title, body)
  {
    ids, tokens, records := [], [], [];
    var k := 0;
    while k < |pushTokens|
      invariant 0 <= k <= |pushTokens|
      invariant ids == Distinct(UserIds(pushTokens[..k]))
      invariant tokens == TokensOf(pushTokens[..k])
      invariant records == RecordsFor(ids, title, body)
    {
      var userId := pushTokens[k].userId;
      PrefixStep(pushTokens, k);
      DistinctAppend(UserIds(pushTokens[..k]), userId);
      if userId !in ids {
        RecordsForAppend(ids, userId, title, body);
        records := records + [PushRecord(userId, title, body)];
        ids := ids + [userId];
      }
      tokens := tokens + [pushTokens[k].token];
      k := k + 1;
    }
    assert pushTokens[..k] == pushTokens;
  }

  /** The loop builds exactly one record per distinct user, in first-seen order, with
      no user twice, and keeps every token in input order. */
  lemma OneRecordPerUser(pushTokens: seq<PushToken>, title: string, body: string)
    ensures var ids := Distinct(UserIds(pushTokens));
      NoDuplicates(ids) &&
      (forall u :: u in ids <==> exists k :: 0 <= k < |pushTokens| && pushTokens[k].userId == u) &&
      (forall a, b :: 0 <= a < b < |ids| ==>
         ids[a] in UserIds(pushTokens) && ids[b] in UserIds(pushTokens) &&
         FirstIndex(UserIds(pushTokens), ids[a]) < FirstIndex(UserIds(pushTokens), ids[b]))
    ensures var ids := Distinct(UserIds(pushTokens));
      var records := RecordsFor(ids, title, body);
      |records| == |ids| && forall k :: 0 <= k < |ids| ==> records[k].userId == Some(ids[k])
  {
    var us := UserIds(pushTokens);
    DistinctSpec(us);
    forall u ensures u in us <==> exists k :: 0 <= k < |pushTokens| && pushTokens[k].userId == u {
      if u in us {
        var k :| 0 <= k < |us| && us[k] == u;
        assert pushTokens[k].userId == u;
      }
    }
  }

  /** The common tail of the trial-user and free-user broadcasts, after their queries
      returned `pushTokens`: the records are written only when `saveNotification` is
      set; the push goes to every token regardless. */
  method NotifyPlanUsers(pushTokens: seq<PushToken>, title: string, body: string, saveNotification: bool,
                         post: (nat, seq<string>) -> PostOutcome)
    returns (created: seq<Notification>, run: PushRun)
    ensures created == if saveNotification then RecordsFor(Distinct(UserIds(pushTokens)), title, body) else []
    ensures run == Sending(TokensOf(pushTokens), title, body, post)
  {
    var ids, tokens, records := CollectRecipients(pushTokens, title, body);
    created := [];
    if saveNotification {
      created := records;
    }
    run := SendPushNotificationsInBatches(title, body, tokens, post);
  }

  // ---------------------------------------------------------------------------
  // sendPushNotiComment / sendPushNotiReaction: guards
  // ---------------------------------------------------------------------------

  datatype User = User(id: string, clerkId: string, firstName: Option<string>, lastName: Option<string>)

  datatype AnalysisComment = AnalysisComment(userId: string, text: string, analysisId: string)

  /** `enableFullNotifications` of a user's preference; `None` is a database null. */
  datatype Preference = Preference(enableFullNotifications: Option<bool>)

  /** What a handler did: the records it created, and the push it handed to the sender
      (`None` when it sent nothing). */
  datatype PushRequest = PushRequest(title: string, body: string, tokens: seq<string>)
  datatype Effects = Effects(created: seq<Notification>, push: Option<PushRequest>)

  /** `${x}` of a possibly missing value: a missing object renders as `undefined`. */
  function Show(o: Option<string>): string
  {
    if o.Some? then o.value else "undefined"
  }

  /** `${author?.firstName}`: a missing author gives `undefined`, a null name `null`. */
  function ShowName(author: Option<User>, first: bool): string
  {
    if author.None? then "undefined"
    else
      var name := if first then author.value.firstName else author.value.lastName;
      if name.Some? then name.value else "null"
  }

  function OrEmpty(o: Option<string>): string
  {
    if o.Some? && o.value != "" then o.value else ""
  }

  /** `targetUser.id == author?.id`: never true when there is no author. */
  predicate SameUser(target: User, author: Option<User>)
  {
    author.Some? && target.id == author.value.id
  }

  /** `sendPushNotiComment`, given what its queries found: the author, the comment
      replied to, its writer, and that writer's push tokens that allow full
      notifications. */
  function CommentEffects(author: Option<User>, parent: Option<AnalysisComment>, targetUser: Option<User>,
                          tokens: seq<string>, logo: Option<string>, analysisId: Option<string>): Effects
  {
    if targetUser.None? || SameUser(targetUser.value, author) then Effects([], None)
    else
      var title := ShowName(author, true) + " commented on your post";
      var body := Show(if parent.Some? then Some(parent.value.text) else None);
      var record := Notification(Some(targetUser.value.clerkId), title, body, OrEmpty(logo), "analysis", analysisId);
      Effects([record], Some(PushRequest(title, body, tokens)))
  }

  const ReactionBody: string :=
    "আপনার মন্তব্যটি প্রশংসিত হয়েছে! 🌟 আরও দারুণ মন্তব্য করুন এবং বিনিয়োগকারীদের সঙ্গে সংযোগ গড়ে তুলুন।"

  /** `sendPushNotiReaction`, given its queries' results; the tokens and the preference
      come with the target user. */
  function ReactionEffects(author: Option<User>, comment: Option<AnalysisComment>, targetUser: Option<User>,
                           preference: Option<Preference>, tokens: seq<string>, logo: Option<string>): Effects
  {
    if targetUser.None? || SameUser(targetUser.value, author) then Effects([], None)
    else
      var title := ShowName(author, true) + " " + ShowName(author, false) + " আপনার মন্তব্যটি পছন্দ করেছেন";
      var entity := if comment.Some? then Some(comment.value.analysisId) else None;
      var record := Notification(Some(targetUser.value.clerkId), title, ReactionBody, OrEmpty(logo), "analysis", entity);
      var disabled := preference.Some? && preference.value.enableFullNotifications == Some(false);
      Effects([record], if disabled then None else Some(PushRequest(title, ReactionBody, tokens)))
  }

  /** A missing target user, or a target user who is the author, stops both handlers
      before anything is created or sent; otherwise exactly one record addressed to
      the target user is created. */
  lemma GuardsStopEarly(author: Option<User>, comment: Option<AnalysisComment>, targetUser: Option<User>,
                        preference: Option<Preference>, tokens: seq<string>, logo: Option<string>,
                        analysisId: Option<string>)
    ensures var c := CommentEffects(author, comment, targetUser, tokens, logo, analysisId);
      (targetUser.None? || SameUser(targetUser.value, author)) <==> c == Effects([], None)
    ensures var r := ReactionEffects(author, comment, targetUser, preference, tokens, logo);
      (targetUser.None? || SameUser(targetUser.value, author)) <==> r == Effects([], None)
    ensures var c := CommentEffects(author, comment, targetUser, tokens, logo, analysisId);
      !(targetUser.None? || SameUser(targetUser.value, author)) ==>
        |c.created| == 1 && c.created[0].userId == Some(targetUser.value.clerkId) &&
        c.push.Some? && c.push.value.tokens == tokens
  {
  }

  /** Past the guards the reaction handler always creates its record, and skips the
      push only when the preference says `enableFullNotifications` is `false` (a null
      or missing preference still sends). */
  lemma ReactionPushUnlessDisabled(author: Option<User>, comment: Option<AnalysisComment>, targetUser: Option<User>,
                                   preference: Option<Preference>, tokens: seq<string>, logo: Option<string>)
    requires targetUser.Some? && !SameUser(targetUser.value, author)
    ensures var r := ReactionEffects(author, comment, targetUser, preference, tokens, logo);
      |r.created| == 1 && r.created[0].userId == Some(targetUser.value.clerkId) &&
      (r.push.None? <==> preference.Some? && preference.value.enableFullNotifications == Some(false)) &&
      (r.push.Some? ==> r.push.value.tokens == tokens && r.push.value.body == r.created[0].message)
  {
  }

  // ---------------------------------------------------------------------------
  // updateNews
  // ---------------------------------------------------------------------------

  const MarketBatchSize: nat := 5
  const DbBatchSize: nat := 10

  /** One element of `newsData.data`; `id` is the rendered `${item.id}`. */
  datatype NewsItem = NewsItem(id: string, title: Option<string>, details: Option<string>,
                               bn: Option<string>, postDate: Option<string>)

  /** The answer of the news endpoint for one symbol: the request or its JSON failed
      (the job throws), the body had no `data`, or the list of items. */
  datatype NewsFetch = FetchError | NoData | Items(items: seq<NewsItem>)

  /** The arguments of one `prisma.news.upsert`; `postDate` is what `new Date(...)` is
      built from. */
  datatype NewsUpsert = NewsUpsert(id: string, symbol: string, title: string, details: string,
                                   bn: string, postDate: Option<string>)

  /** An awaited group of upserts (`Promise.all`), or the 100 ms pause after it. */
  datatype DbEvent = Awaited(group: seq<NewsUpsert>) | Delay

  datatype UpdateRun = UpdateRun(events: seq<DbEvent>, failed: bool)

  function UpsertOf(symbol: string, item: NewsItem): NewsUpsert
  {
    NewsUpsert(item.id, symbol, OrEmpty(item.title), OrEmpty(item.details), OrEmpty(item.bn), item.postDate)
  }

  function UpsertsOf(symbol: string, items: seq<NewsItem>): (r: seq<NewsUpsert>)
    ensures |r| == |items| && forall k :: 0 <= k < |items| ==> r[k] == UpsertOf(symbol, items[k])
  {
    if items == [] then []
    else UpsertsOf(symbol, items[..|items| - 1]) + [UpsertOf(symbol, items[|items| - 1])]
  }

  /** The upserts a market batch queues; its first market is market number `first`,
      and `news` answers the request for each market. `None` when a request fails. */
  function BatchUpserts(batch: seq<string>, first: nat, news: (nat, string) -> NewsFetch): Option<seq<NewsUpsert>>
    decreases |batch|
  {
    if batch == [] then Some([])
    else
      match BatchUpserts(batch[..|batch| - 1], first, news)
      case None => None
      case Some(ps) =>
        var k := |batch| - 1;
        match news(first + k, batch[k])
        case FetchError => None
        case NoData => Some(ps)
        case Items(items) => Some(ps + UpsertsOf(batch[k], items))
  }

  /** Awaiting `promises` in groups of 10, each group followed by the pause. */
  function Flushes(groups: seq<seq<NewsUpsert>>): seq<DbEvent>
    decreases |groups|
  {
    if groups == [] then [] else [Awaited(groups[0]), Delay] + Flushes(groups[1..])
  }

  /** The market batches from market number `first` on. */
  function RunBatches(batches: seq<seq<string>>, first: nat, news: (nat, string) -> NewsFetch): UpdateRun
    decreases |batches|
  {
    if batches == [] then UpdateRun([], false)
    else
      match BatchUpserts(batches[0], first, news)
      case None => UpdateRun([], true)
      case Some(ps) =>
        var rest := RunBatches(batches[1..], first + |batches[0]|, news);
        UpdateRun(Flushes(Chunks(ps, DbBatchSize)) + rest.events, rest.failed)
  }

  /** `updateNews`, given the symbols of the BD markets. */
  function Updating(markets: seq<string>, news: (nat, string) -> NewsFetch): UpdateRun
  {
    RunBatches(Chunks(markets, MarketBatchSize), 0, news)
  }

  /** A symbol whose response has no `data` queues nothing; items of a symbol are
      queued in order, each carrying the symbol and `""` for a missing text field. */
  lemma SkipsMissingData(batch: seq<string>, first: nat, news: (nat, string) -> NewsFetch)
    requires batch != []
    ensures var k := |batch| - 1;
      news(first + k, batch[k]) == NoData ==>
        BatchUpserts(batch, first, news) == BatchUpserts(batch[..k], first, news)
    ensures var k := |batch| - 1;
      news(first + k, batch[k]).Items? && BatchUpserts(batch[..k], first, news).Some? ==>
        var added := UpsertsOf(batch[k], news(first + k, batch[k]).items);
        BatchUpserts(batch, first, news) == Some(BatchUpserts(batch[..k], first, news).value + added) &&
        forall j :: 0 <= j < |added| ==> added[j].symbol == batch[k] && added[j].id == news(first + k, batch[k]).items[j].id
  {
  }

  /** The markets are visited in consecutive groups of at most 5, losing and
      reordering none. */
  lemma MarketsInGroupsOfFive(markets: seq<string>)
    ensures var bs := Chunks(markets, MarketBatchSize);
      Concat(bs) == markets && forall k :: 0 <= k < |bs| ==> 1 <= |bs[k]| <= MarketBatchSize
  {
    ChunksConcat(markets, MarketBatchSize);
    ChunksBounded(markets, MarketBatchSize);
  }

  lemma {:induction false} FlushesShape(gs: seq<seq<NewsUpsert>>)
    ensures |Flushes(gs)| == 2 * |gs|
    ensures forall k :: 0 <= k < |gs| ==> Flushes(gs)[2 * k] == Awaited(gs[k]) && Flushes(gs)[2 * k + 1] == Delay
    decreases |gs|
  {
    if gs != [] {
      var rest := Flushes(gs[1..]);
      FlushesShape(gs[1..]);
      var f := Flushes(gs);
      assert f == [Awaited(gs[0]), Delay] + rest;
      forall k | 0 <= k < |gs| ensures f[2 * k] == Awaited(gs[k]) && f[2 * k + 1] == Delay {
        if k > 0 {
          assert gs[k] == gs[1..][k - 1];
          assert f[2 * k] == rest[2 * (k - 1)] && f[2 * k + 1] == rest[2 * (k - 1) + 1];
        }
      }
    }
  }

  /** The queued upserts are awaited in consecutive groups of at most 10, in order and
      all of them, each group followed by the pause. */
  lemma AwaitedInGroupsOfTen(promises: seq<NewsUpsert>)
    ensures var gs := Chunks(promises, DbBatchSize);
      Concat(gs) == promises && (forall k :: 0 <= k < |gs| ==> 1 <= |gs[k]| <= DbBatchSize) &&
      |Flushes(gs)| == 2 * |gs| &&
      forall k :: 0 <= k < |gs| ==> Flushes(gs)[2 * k] == Awaited(gs[k]) && Flushes(gs)[2 * k + 1] == Delay
  {
    ChunksConcat(promises, DbBatchSize);
    ChunksBounded(promises, DbBatchSize);
    FlushesShape(Chunks(promises, DbBatchSize));
  }

  /** Once a request has failed, the batch fails. */
  lemma {:induction false} FailurePersists(batch: seq<string>, m: nat, first: nat, news: (nat, string) -> NewsFetch)
    requires m <= |batch| && BatchUpserts(batch[..m], first, news).None?
    ensures BatchUpserts(batch, first, news).None?
    decreases |batch|
  {
    if m < |batch| {
      var init := batch[..|batch| - 1];
      assert init[..m] == batch[..m];
      FailurePersists(init, m, first, news);
    } else {
      assert batch[..m] == batch;
    }
  }

  /** One market of the batch loop, seen from the prefix already handled. */
  lemma BatchUpsertsStep(batch: seq<string>, m: nat, first: nat, news: (nat, string) -> NewsFetch)
    requires m < |batch|
    ensures BatchUpserts(batch[..m + 1], first, news) ==
              match BatchUpserts(batch[..m], first, news)
              case None => None
              case Some(ps) =>
                match news(first + m, batch[m])
                case FetchError => None
                case NoData => Some(ps)
                case Items(items) => Some(ps + UpsertsOf(batch[m], items))
  {
    assert batch[..m + 1][..m] == batch[..m];
  }

  /** `for (const item of newsItems) promises.push(prisma.news.upsert(...))`. */
  method QueueItems(queued: seq<NewsUpsert>, symbol: string, items: seq<NewsItem>)
    returns (r: seq<NewsUpsert>)
    ensures r == queued + UpsertsOf(symbol, items)
  {
    r := queued;
    var j := 0;
    while j < |items|
      invariant 0 <= j <= |items|
      invariant r == queued + UpsertsOf(symbol, items[..j])
    {
      r := r + [UpsertOf(symbol, items[j])];
      assert items[..j + 1][..j] == items[..j];
      j := j + 1;
    }
    assert items[..j] == items;
  }

  /** The upserts of one market batch: each market's news is requested in turn, a
      symbol without `data` is skipped, and a failed request ends the job. */
  method FetchBatchNews(batch: seq<string>, first: nat, news: (nat, string) -> NewsFetch)
    returns (promises: Option<seq<NewsUpsert>>)
    ensures promises == BatchUpserts(batch, first, news)
  {
    var queued: seq<NewsUpsert> := [];
    var m := 0;
    while m < |batch|
      invariant 0 <= m <= |batch|
      invariant BatchUpserts(batch[..m], first, news) == Some(queued)
    {
      var symbol := batch[m];
      var response := news(first + m, symbol);
      BatchUpsertsStep(batch, m, first, news);
      if response.FetchError? {
        FailurePersists(batch, m + 1, first, news);
        return None;
      }
      if response.Items? {
        queued := QueueItems(queued, symbol, response.items);
      }
      m := m + 1;
    }
    assert batch[..m] == batch;
    return Some(queued);
  }

  /** `for (j = 0; j < promises.length; j += 10) { await Promise.all(slice); wait }`. */
  method AwaitInGroups(promises: seq<NewsUpsert>) returns (events: seq<DbEvent>)
    ensures events == Flushes(Chunks(promises, DbBatchSize))
  {
    events := [];
    var j := 0;
    ChunksFromStart(promises, DbBatchSize);
    while j < |promises|
      invariant Flushes(Chunks(promises, DbBatchSize)) == events + Flushes(Chunks(From(promises, j), DbBatchSize))
    {
      var end := if j + DbBatchSize < |promises| then j + DbBatchSize else |promises|;
      var group := promises[j..end];
      ChunksFrom(promises, j, DbBatchSize);
      events := events + [Awaited(group), Delay];
      j := j + DbBatchSize;
    }
  }

  function ThenUpdate(events: seq<DbEvent>, run: UpdateRun): UpdateRun
  {
    UpdateRun(events + run.events, run.failed)
  }

  /** `updateNews`: the markets in consecutive groups of 5; for each group, every
      market's news is queued and then awaited in groups of 10. */
  method UpdateNewsJob(markets: seq<string>, news: (nat, string) -> NewsFetch) returns (run: UpdateRun)
    ensures run == Updating(markets, news)
  {
    var events: seq<DbEvent> := [];
    var i := 0;
    ChunksFromStart(markets, MarketBatchSize);
    while i < |markets|
      invariant Updating(markets, news) ==
                ThenUpdate(events, RunBatches(Chunks(From(markets, i), MarketBatchSize), i, news))
    {
      var end := if i + MarketBatchSize < |markets| then i + MarketBatchSize else |markets|;
      var batch := markets[i..end];
      ChunksFrom(markets, i, MarketBatchSize);
      assert RunBatches(Chunks(From(markets, i + MarketBatchSize), MarketBatchSize), i + |batch|, news) ==
             RunBatches(Chunks(From(markets, i + MarketBatchSize), MarketBatchSize), i + MarketBatchSize, news);
      var promises := FetchBatchNews(batch, i, news);
      if promises.None? {
        return UpdateRun(events, true);
      }
      var flushed := AwaitInGroups(promises.value);
      events := events + flushed;
      i := i + MarketBatchSize;
    }
    return UpdateRun(events, false);
  }
}
