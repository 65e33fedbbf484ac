/** The de-duplicating interaction-history append of utils.py:
    `update_interaction_history`, its inner `_entry_id` and `patch_fn`, and the
    two entry builders `add_user_query_to_history` and
    `add_agent_response_to_history`. */
module History {
  import opened Wrappers
  import opened PyValue
  import opened Session

  /** The state key the history lives under. */
  const HistoryKey := "interaction_history"

  /** `_entry_id(e)`: the string form of a non-dict; for a dict,
      `action|timestamp|X` where X is `query` if present, else `course_id`,
      else empty, and a missing `action` or `timestamp` contributes "". */
  function EntryId(e: Value): string
  {
    match e
    case Dict(f) =>
      ToStr(GetOr(f, "action", Str(""))) + "|"
      + ToStr(GetOr(f, "timestamp", Str(""))) + "|"
      + ToStr(GetOr(f, "query", GetOr(f, "course_id", Str(""))))
    case _ => ToStr(e)
  }

  /** A dict's identity depends on its `action`, `timestamp`, `query` and
      `course_id` bindings only; every other key is ignored. */
  lemma EntryIdIgnoresOtherKeys(f: Fields, g: Fields)
    requires Get(f, "action") == Get(g, "action")
    requires Get(f, "timestamp") == Get(g, "timestamp")
    requires Get(f, "query") == Get(g, "query")
    requires Get(f, "course_id") == Get(g, "course_id")
    ensures EntryId(Dict(f)) == EntryId(Dict(g))
  {
    assert GetOr(f, "course_id", Str("")) == GetOr(g, "course_id", Str(""));
  }

  /** `existing_ids`: the set of identities of the dict entries of a history. */
  function DictIds(h: seq<Value>): set<string>
  {
    if |h| == 0 then {}
    else
      var last := h[|h| - 1];
      DictIds(h[..|h| - 1]) + if last.Dict? then {EntryId(last)} else {}
  }

  /** Some dict entry of `h` already has the identity of `entry`. */
  predicate Blocks(h: seq<Value>, entry: Fields)
  {
    exists i :: 0 <= i < |h| && h[i].Dict? && EntryId(h[i]) == EntryId(Dict(entry))
  }

  /** `list(latest_state.get("interaction_history", []))`; `None` when `list`
      raises because the stored value is not iterable. */
  function CurrentHistory(state: Fields): Option<seq<Value>>
  {
    Iterate(GetOr(state, HistoryKey, List([])))
  }

  /** The history after the patch: `entry` appended unless some dict entry
      already carries its identity. */
  function Appended(h: seq<Value>, entry: Fields): seq<Value>
  {
    if EntryId(Dict(entry)) in DictIds(h) then h else h + [Dict(entry)]
  }

  /** `patch_fn`: rewrite the history key of the state with the de-duplicated
      history; fails as `list` does when the stored history is not iterable. */
  function Patch(state: Fields, entry: Fields): (r: Result<Fields, string>)
    ensures r.Failure? <==> CurrentHistory(state).None?
    ensures r.Success? ==>
              var h := CurrentHistory(state).value;
              Get(r.value, HistoryKey)
                == Some(List(if Blocks(h, entry) then h else h + [Dict(entry)]))
    ensures r.Success? ==> forall k :: k != HistoryKey ==> Get(r.value, k) == Get(state, k)
  {
    match CurrentHistory(state)
    case None => Failure("TypeError")
    case Some(h) =>
      DictIdsExactlyBlocking(h, entry);
      Success(Set(state, HistoryKey, List(Appended(h, entry))))
  }

  /** The history a successful patch writes back. */
  function PatchedHistory(state: Fields, entry: Fields): seq<Value>
    requires CurrentHistory(state).Some?
  {
    Get(Patch(state, entry).value, HistoryKey).value.items
  }

  /** The old history is a prefix of the new one, which is at most one entry
      longer, and any new entry is `entry` itself. */
  lemma PatchExtendsHistory(state: Fields, entry: Fields)
    requires CurrentHistory(state).Some?
    ensures var h := CurrentHistory(state).value;
            var h' := PatchedHistory(state, entry);
            && |h| <= |h'| <= |h| + 1
            && h'[..|h|] == h
            && (|h'| == |h| + 1 ==> h'[|h|] == Dict(entry))
  {
    var h := CurrentHistory(state).value;
    var h' := PatchedHistory(state, entry);
    assert h' == if Blocks(h, entry) then h else h + [Dict(entry)];
  }

  /** A state without the history key behaves as one holding an empty list:
      the entry becomes the whole history. */
  lemma PatchMissingHistory(state: Fields, entry: Fields)
    requires !HasKey(state, HistoryKey)
    ensures Patch(state, entry).Success?
    ensures PatchedHistory(state, entry) == [Dict(entry)]
  {
  }

  /** Entries that are not dicts never block an append. */
  lemma PatchIgnoresNonDicts(state: Fields, entry: Fields)
    requires CurrentHistory(state).Some?
    requires forall i :: 0 <= i < |CurrentHistory(state).value| ==> !CurrentHistory(state).value[i].Dict?
    ensures PatchedHistory(state, entry) == CurrentHistory(state).value + [Dict(entry)]
  {
  }

  /** Once a patch has committed an entry, patching the result with any entry
      of the same identity changes nothing. */
  lemma {:induction false} PatchSameIdentityNoop(state: Fields, entry: Fields, other: Fields)
    requires Patch(state, entry).Success?
    requires EntryId(Dict(other)) == EntryId(Dict(entry))
    ensures Patch(Patch(state, entry).value, other) == Patch(state, entry)
  {
    var s1 := Patch(state, entry).value;
    var h := CurrentHistory(state).value;
    var h1 := if Blocks(h, entry) then h else h + [Dict(entry)];
    assert Get(s1, HistoryKey) == Some(List(h1));
    assert CurrentHistory(s1) == Some(h1);
    assert Blocks(h1, other) by {
      if Blocks(h, entry) {
        var i :| 0 <= i < |h| && h[i].Dict? && EntryId(h[i]) == EntryId(Dict(entry));
        assert h1[i] == h[i];
      } else {
        assert h1[|h|] == Dict(entry);
      }
    }
    SetExisting(s1, HistoryKey, List(h1));
  }

  /** Patching twice with the same entry is patching once. */
  lemma PatchIdempotent(state: Fields, entry: Fields)
    requires Patch(state, entry).Success?
    ensures Patch(Patch(state, entry).value, entry) == Patch(state, entry)
  {
    PatchSameIdentityNoop(state, entry, entry);
  }

  /** The entry actually stored: the caller's dict when it has a `timestamp`,
      otherwise a copy with `timestamp` set to the current time `now`
      (`datetime.now()` formatted as `%Y-%m-%d %H:%M:%S`), appended last. */
  function Stamp(entry: Fields, now: string): (r: Fields)
    ensures HasKey(entry, "timestamp") ==> r == entry
    ensures !HasKey(entry, "timestamp") ==>
              && r == entry + [("timestamp", Str(now))]
              && Get(r, "timestamp") == Some(Str(now))
              && forall k :: k != "timestamp" ==> Get(r, k) == Get(entry, k)
  {
    if HasKey(entry, "timestamp") then entry else Set(entry, "timestamp", Str(now))
  }

  /** `patch_fn` as the retry loop sees it: a dict in, a dict or an exception out. */
  function HistoryPatch(entry: Fields): PatchFn
  {
    s => match Patch(s, entry)
         case Success(s') => Success(Dict(s'))
         case Failure(why) => Failure(why)
  }

  /** `update_interaction_history`: stamp the entry once, then run the retry
      loop with the de-duplicating patch and the default retry bound. */
  function UpdateInteractionHistory(service: nat -> Attempt, entry: Fields, now: string): Run
  {
    AtomicUpdate(service, HistoryPatch(Stamp(entry, now)), DefaultMaxRetries)
  }

  /** An attempt on which the history patch goes through: the read returns,
      the stored history is iterable, and the write succeeds. */
  predicate GoesThrough(a: Attempt)
  {
    && a.read.ReadOk?
    && a.write.WriteOk?
    && CurrentHistory(PatchInput(a.read.state)).Some?
  }

  /** With the history patch, an attempt commits exactly when it goes through,
      and what it commits is the patched state. */
  lemma HistoryAttemptCommits(a: Attempt, entry: Fields)
    ensures RunAttempt(a, HistoryPatch(entry)).Success? <==> GoesThrough(a)
    ensures GoesThrough(a) ==>
              Patch(PatchInput(a.read.state), entry)
                == Success(RunAttempt(a, HistoryPatch(entry)).value)
  {
  }

  /** An update commits if and only if one of its first five attempts goes
      through, and then on the first such attempt; what it writes is the patch,
      with the once-stamped entry, of the state that attempt read (or of `{}`). */
  lemma UpdateCommitsPatchedState(service: nat -> Attempt, entry: Fields, now: string)
    ensures var r := UpdateInteractionHistory(service, entry, now);
            r.outcome.Committed? <==>
              exists k :: 1 <= k <= DefaultMaxRetries && GoesThrough(service(k))
    ensures var r := UpdateInteractionHistory(service, entry, now);
            r.outcome.Committed? ==>
              && 1 <= r.outcome.attempt <= DefaultMaxRetries
              && GoesThrough(service(r.outcome.attempt))
              && (forall j :: 1 <= j < r.outcome.attempt ==> !GoesThrough(service(j)))
              && Patch(PatchInput(service(r.outcome.attempt).read.state), Stamp(entry, now))
                   == Success(r.outcome.state)
  {
    var e := Stamp(entry, now);
    var r := UpdateInteractionHistory(service, entry, now);
    forall k ensures Succeeds(service, HistoryPatch(e), k) <==> GoesThrough(service(k)) {
      HistoryAttemptCommits(service(k), e);
    }
    if r.outcome.Committed? {
      HistoryAttemptCommits(service(r.outcome.attempt), e);
    }
  }

  /** `{"action": "user_query", "query": query}`. */
  function UserQueryEntry(query: string): Fields
  {
    [("action", Str("user_query")), ("query", Str(query))]
  }

  /** `{"action": "agent_response", "agent": agent, "response": response}`. */
  function AgentResponseEntry(agent: string, response: string): Fields
  {
    [("action", Str("agent_response")), ("agent", Str(agent)), ("response", Str(response))]
  }

  /** `add_user_query_to_history`. */
  function AddUserQuery(service: nat -> Attempt, query: string, now: string): Run
  {
    UpdateInteractionHistory(service, UserQueryEntry(query), now)
  }

  /** `add_agent_response_to_history`. */
  function AddAgentResponse(service: nat -> Attempt, agent: string, response: string,
                            now: string): Run
  {
    UpdateInteractionHistory(service, AgentResponseEntry(agent, response), now)
  }

  /** `add_user_query_to_history` on a committing attempt whose history has no
      entry with the same query stamped at the same time appends exactly that
      query entry, stamped with `now`. */
  lemma AddUserQueryAppends(service: nat -> Attempt, query: string, now: string)
    ensures var r := AddUserQuery(service, query, now);
            r.outcome.Committed? ==>
              var h := CurrentHistory(PatchInput(service(r.outcome.attempt).read.state)).value;
              !Blocks(h, Stamp(UserQueryEntry(query), now)) ==>
                Get(r.outcome.state, HistoryKey)
                  == Some(List(h + [Dict(Stamp(UserQueryEntry(query), now))]))
  {
    UpdateCommitsPatchedState(service, UserQueryEntry(query), now);
  }

  /** `add_agent_response_to_history` on a committing attempt whose history
      already holds any agent response stamped at the same time leaves the
      history as read, whatever the agent and the text. */
  lemma AddAgentResponseDropsSameSecond(service: nat -> Attempt, agent: string, response: string,
                                        now: string, earlierAgent: string, earlierResponse: string)
    ensures var r := AddAgentResponse(service, agent, response, now);
            r.outcome.Committed? ==>
              var h := CurrentHistory(PatchInput(service(r.outcome.attempt).read.state)).value;
              Dict(Stamp(AgentResponseEntry(earlierAgent, earlierResponse), now)) in h ==>
                Get(r.outcome.state, HistoryKey) == Some(List(h))
  {
    var r := AddAgentResponse(service, agent, response, now);
    UpdateCommitsPatchedState(service, AgentResponseEntry(agent, response), now);
    if r.outcome.Committed? {
      var h := CurrentHistory(PatchInput(service(r.outcome.attempt).read.state)).value;
      var earlier := Dict(Stamp(AgentResponseEntry(earlierAgent, earlierResponse), now));
      if earlier in h {
        AgentResponseIdentity(agent, response, now);
        AgentResponseIdentity(earlierAgent, earlierResponse, now);
        var i :| 0 <= i < |h| && h[i] == earlier;
        assert Blocks(h, Stamp(AgentResponseEntry(agent, response), now));
      }
    }
  }

  /** The identity of a dict whose identity fields are strings: a missing
      `action` or `timestamp` reads as the empty string, and the third part is
      `query`, else `course_id`, else the empty string. */
  lemma TextIdentity(f: Fields, action: string, timestamp: string, x: string)
    requires Get(f, "action") == Some(Str(action)) || (!HasKey(f, "action") && action == "")
    requires Get(f, "timestamp") == Some(Str(timestamp)) || (!HasKey(f, "timestamp") && timestamp == "")
    requires || Get(f, "query") == Some(Str(x))
             || (!HasKey(f, "query") && Get(f, "course_id") == Some(Str(x)))
             || (!HasKey(f, "query") && !HasKey(f, "course_id") && x == "")
    ensures EntryId(Dict(f)) == action + "|" + timestamp + "|" + x
  {
    assert GetOr(f, "action", Str("")) == Str(action);
    assert GetOr(f, "timestamp", Str("")) == Str(timestamp);
    assert GetOr(f, "query", GetOr(f, "course_id", Str(""))) == Str(x);
  }

  /** The lookups the identity makes on a stamped agent-response entry. */
  lemma StampedAgentResponse(agent: string, response: string, now: string)
    ensures var e := Stamp(AgentResponseEntry(agent, response), now);
            && Get(e, "action") == Some(Str("agent_response"))
            && Get(e, "timestamp") == Some(Str(now))
            && !HasKey(e, "query") && !HasKey(e, "course_id")
  {
    var f := AgentResponseEntry(agent, response);
    assert forall i :: 0 <= i < |f| ==> f[i].0 != "timestamp";
    assert forall i :: 0 <= i < |f| ==> f[i].0 != "query" && f[i].0 != "course_id";
    var e := Stamp(f, now);
    assert Get(e, "query") == Get(f, "query");
    assert Get(e, "course_id") == Get(f, "course_id");
  }

  /** An agent response has neither `query` nor `course_id`, so its identity is
      `agent_response|<timestamp>|` whatever the agent and the response text. */
  lemma AgentResponseIdentity(agent: string, response: string, now: string)
    ensures EntryId(Dict(Stamp(AgentResponseEntry(agent, response), now)))
         == "agent_response" + "|" + now + "|"
  {
    StampedAgentResponse(agent, response, now);
    var e := Stamp(AgentResponseEntry(agent, response), now);
    TextIdentity(e, "agent_response", now, "");
  }

  /** Hence a second agent response stamped in the same second is dropped,
      whatever its agent and text. */
  lemma SecondAgentResponseDropped(state: Fields, a1: string, r1: string, a2: string, r2: string,
                                   now: string)
    requires CurrentHistory(state).Some?
    ensures var s1 := Patch(state, Stamp(AgentResponseEntry(a1, r1), now));
            Patch(s1.value, Stamp(AgentResponseEntry(a2, r2), now)) == s1
  {
    AgentResponseIdentity(a1, r1, now);
    AgentResponseIdentity(a2, r2, now);
    PatchSameIdentityNoop(state, Stamp(AgentResponseEntry(a1, r1), now),
                          Stamp(AgentResponseEntry(a2, r2), now));
  }

  /** The lookups the identity makes on a stamped user-query entry. */
  lemma StampedUserQuery(query: string, now: string)
    ensures var e := Stamp(UserQueryEntry(query), now);
            && Get(e, "action") == Some(Str("user_query"))
            && Get(e, "timestamp") == Some(Str(now))
            && Get(e, "query") == Some(Str(query))
  {
    var f := UserQueryEntry(query);
    assert forall i :: 0 <= i < |f| ==> f[i].0 != "timestamp";
    var e := Stamp(f, now);
    assert Get(f, "query") == Some(Str(query)) by {
      assert f[0].0 != "query" && f[1..][0] == ("query", Str(query));
    }
    assert Get(e, "query") == Get(f, "query");
  }

  /** A user query's identity is `user_query|<timestamp>|<query>`. */
  lemma UserQueryIdentity(query: string, now: string)
    ensures EntryId(Dict(Stamp(UserQueryEntry(query), now))) == "user_query" + "|" + now + "|" + query
  {
    StampedUserQuery(query, now);
    var e := Stamp(UserQueryEntry(query), now);
    TextIdentity(e, "user_query", now, query);
  }

  /** Two user queries with different text have different identities. */
  lemma UserQueryIdentitiesDiffer(q1: string, q2: string, now: string)
    requires q1 != q2
    ensures EntryId(Dict(Stamp(UserQueryEntry(q1), now)))
         != EntryId(Dict(Stamp(UserQueryEntry(q2), now)))
  {
    UserQueryIdentity(q1, now);
    UserQueryIdentity(q2, now);
    var p := "user_query" + "|" + now + "|";
    assert "user_query" + "|" + now + "|" + q1 == p + q1;
    assert "user_query" + "|" + now + "|" + q2 == p + q2;
    SamePrefixDiffers(p, q1, q2);
  }

  /** A common prefix keeps different suffixes apart. */
  lemma SamePrefixDiffers(p: string, a: string, b: string)
    requires a != b
    ensures p + a != p + b
  {
    assert (p + a)[|p|..] == a && (p + b)[|p|..] == b;
  }

  /** Appending one entry adds a blocker exactly when it is a dict with the same identity. */
  lemma BlocksAppend(h: seq<Value>, x: Value, entry: Fields)
    ensures Blocks(h + [x], entry)
        <==> Blocks(h, entry) || (x.Dict? && EntryId(x) == EntryId(Dict(entry)))
  {
    var h1 := h + [x];
    if Blocks(h1, entry) {
      var i :| 0 <= i < |h1| && h1[i].Dict? && EntryId(h1[i]) == EntryId(Dict(entry));
      if i < |h| {
        assert h[i] == h1[i];
      }
    }
    if Blocks(h, entry) {
      var i :| 0 <= i < |h| && h[i].Dict? && EntryId(h[i]) == EntryId(Dict(entry));
      assert h1[i] == h[i];
    }
    if x.Dict? && EntryId(x) == EntryId(Dict(entry)) {
      assert h1[|h|] == x;
    }
  }

  /** The entry's identity is among `existing_ids` exactly when some dict
      entry of the history carries it. */
  lemma {:induction false} DictIdsExactlyBlocking(h: seq<Value>, entry: Fields)
    ensures EntryId(Dict(entry)) in DictIds(h) <==> Blocks(h, entry)
    decreases |h|
  {
    if |h| > 0 {
      var init := h[..|h| - 1];
      DictIdsExactlyBlocking(init, entry);
      BlocksAppend(init, h[|h| - 1], entry);
      assert init + [h[|h| - 1]] == h;
    }
  }

  /** An unblocked entry is appended and the patched state's history reads back as such. */
  lemma PatchAppendsUnblocked(state: Fields, entry: Fields)
    requires CurrentHistory(state).Some?
    requires !Blocks(CurrentHistory(state).value, entry)
    ensures Patch(state, entry).Success?
    ensures CurrentHistory(Patch(state, entry).value)
         == Some(CurrentHistory(state).value + [Dict(entry)])
    ensures PatchedHistory(state, entry) == CurrentHistory(state).value + [Dict(entry)]
  {
    var h := CurrentHistory(state).value;
    assert Get(Patch(state, entry).value, HistoryKey) == Some(List(h + [Dict(entry)]));
  }

  /** Two entries of different identities, neither already present, are both
      appended in order. */
  lemma PatchTwiceAppendsBoth(state: Fields, e1: Fields, e2: Fields)
    requires EntryId(Dict(e1)) != EntryId(Dict(e2))
    requires CurrentHistory(state).Some?
    requires !Blocks(CurrentHistory(state).value, e1)
    requires !Blocks(CurrentHistory(state).value, e2)
    ensures Patch(state, e1).Success?
    ensures Patch(Patch(state, e1).value, e2).Success?
    ensures PatchedHistory(Patch(state, e1).value, e2)
         == CurrentHistory(state).value + [Dict(e1), Dict(e2)]
  {
    var h := CurrentHistory(state).value;
    var h1 := h + [Dict(e1)];
    assert Patch(state, e1).Success? && CurrentHistory(Patch(state, e1).value) == Some(h1) by {
      PatchAppendsUnblocked(state, e1);
    }
    var s1 := Patch(state, e1).value;
    assert !Blocks(h1, e2) by {
      BlocksAppend(h, Dict(e1), e2);
    }
    assert Patch(s1, e2).Success? && PatchedHistory(s1, e2) == h1 + [Dict(e2)] by {
      PatchAppendsUnblocked(s1, e2);
    }
    assert h1 + [Dict(e2)] == h + [Dict(e1), Dict(e2)];
  }

  /** Two user queries stamped in the same second but with different text are
      both appended, in order, to a history holding neither identity. */
  lemma DistinctUserQueriesBothAppended(state: Fields, q1: string, q2: string, now: string)
    requires q1 != q2
    requires CurrentHistory(state).Some?
    requires !Blocks(CurrentHistory(state).value, Stamp(UserQueryEntry(q1), now))
    requires !Blocks(CurrentHistory(state).value, Stamp(UserQueryEntry(q2), now))
    ensures var e1 := Stamp(UserQueryEntry(q1), now);
            var e2 := Stamp(UserQueryEntry(q2), now);
            && Patch(state, e1).Success?
            && Patch(Patch(state, e1).value, e2).Success?
            && PatchedHistory(Patch(state, e1).value, e2)
                 == CurrentHistory(state).value + [Dict(e1), Dict(e2)]
  {
    UserQueryIdentitiesDiffer(q1, q2, now);
    PatchTwiceAppendsBoth(state, Stamp(UserQueryEntry(q1), now), Stamp(UserQueryEntry(q2), now));
  }
}
