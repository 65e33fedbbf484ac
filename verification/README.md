# Session-history helpers of the HIPAA/FDA compliance coordinator

The coordinator keeps a per-session `interaction_history` list in the state of
a session service. Two helpers in `utils.py` maintain it:

- `atomic_update_session` reads the session, hands a copy of its state to a
  patch function, checks that the patch returned a dict, and writes the result
  back. Any `Exception` ends the attempt; the loop sleeps `backoff_factor *
  attempt` seconds and tries again, at most `max_retries` times (default 5),
  then raises `RuntimeError`.
- `update_interaction_history` stamps the entry with the current time when it
  has no `timestamp`. It then runs the retry loop with a patch that appends the
  entry unless a dict entry with the same identity `action|timestamp|query-or-course_id`
  is already in the history. `add_user_query_to_history` and
  `add_agent_response_to_history` build the two kinds of entry.

The model is functional. `PyValue` gives Python values (`str`, `int`, `bool`,
`None`, `list`, insertion-ordered `dict`) and the built-ins the helpers use:
`dict.get`, `d[k] = v`, `list(x)`, `str(x)`. `Session` is the retry loop, a
recursive function over the numbered attempts. The session service is a
parameter `service: nat -> Attempt`: for attempt k it says whether the read
raises or which state it returns, and whether the write raises. A
`get_session` that returns no session makes `session.state` raise, so it is a
read failure too. `time.sleep`
becomes the list of attempt numbers after which the loop sleeps.
`datetime.now()` becomes the string parameter `now`. `History` holds the
entry identity, the patch, the timestamping, the two entry builders, and the
composition `UpdateInteractionHistory`.

Three consequences of the code are worth stating plainly:

- The identity falls back to `course_id`, not to the response text. So an
  agent response's identity is `agent_response|<timestamp>|` whatever the agent
  and the text. A second agent response stamped within the same second is
  therefore dropped (`History.SecondAgentResponseDropped`,
  `History.AddAgentResponseDropsSameSecond`).
- The backoff is linear (`backoff_factor * attempt`).
- The loop also sleeps after the last failed attempt, before it raises.

The two entry builders are modelled as `History.AddUserQuery` and
`History.AddAgentResponse`. Their properties are stated at the patch level, on
the stamped entries they build, and once through each builder on a committing
update.

## Model

| member | source | states |
|---|---|---|
| PyValue.Get | utils.py:91 | a lookup finds a value exactly when the key is bound |
| PyValue.GetFirstBinding | utils.py:91 | the value found is the one at the key's first binding |
| PyValue.GetOr | utils.py:91 | `dict.get(k, default)` yields the bound value when the key is present and the default otherwise |
| PyValue.Set | utils.py:99 | `d[k] = v` makes `k` read back as `v`, leaves every other key's lookup unchanged, keeps the key order when `k` was bound, and appends `(k, v)` at the end when it was not |
| PyValue.SetExisting | utils.py:99 | writing back the value a key already holds leaves the dict identical |
| PyValue.Iterate | utils.py:94 | `list(x)` succeeds exactly on lists, strings and dicts; a list is copied; a string yields as many one-character strings as it has characters, and a character occurs among them exactly when it occurs in the string; a dict yields one string per binding, and `k` occurs among them exactly when `k in d` |
| PyValue.ToStr | utils.py:91 | definition of `str()` as the f-string applies it; no contract of its own (on string fields, the case identities use, `History.TextIdentity` states that it yields the text itself) |
| Session.RunAttempt | utils.py:70-77 | one attempt (the patch receiving `Session.PatchInput` of the state read, i.e. `{}` for a non-dict) commits exactly when the read succeeds, the patch returns without raising, its result is a dict and the write succeeds; what it commits is the patch's result |
| Session.RetryFrom | utils.py:69-81 | from attempt k on: a commit happens at the first committing attempt no later than `max_retries`, with every earlier attempt failed; exhaustion means every attempt up to `max_retries` failed and carries the last one's exception; one sleep is recorded per failed attempt, numbered consecutively |
| Session.AtomicUpdate | utils.py:55-81 | the loop commits if and only if some attempt in 1..`max_retries` commits, and then on the first such; otherwise it raises with `max_retries` and the last attempt's exception (none when no attempt ran); it sleeps after attempts 1..n-1 on a commit at n, and after all attempts on exhaustion; it makes at most `max(max_retries, 0)` attempts |
| Session.NoAttemptsWhenNonPositive | utils.py:69-81 | with `max_retries <= 0` the loop raises at once, with no sleep and no last exception |
| Session.NonDictStateReadAsEmpty | utils.py:72-73 | a session whose state is not a dict gives the same attempt result as a session whose state is `{}` |
| History.EntryId | utils.py:88-91 | definition of `_entry_id`; no contract of its own (its properties are `History.EntryIdIgnoresOtherKeys`, `History.TextIdentity`, `History.AgentResponseIdentity` and `History.UserQueryIdentitiesDiffer`) |
| History.TextIdentity | utils.py:88-91 | for a dict, the identity is `a|t|x` where a is the `action` string ("" when the key is absent), t the `timestamp` string ("" when absent), and x the `query` string, else the `course_id` string when `query` is absent, else "" when both are absent |
| History.EntryIdIgnoresOtherKeys | utils.py:88-91 | two dicts that agree on `action`, `timestamp`, `query` and `course_id` have the same identity, whatever else they hold |
| History.Patch | utils.py:93-100 | the patch raises exactly when the stored history is not iterable; otherwise the history key holds the old history plus the entry, unless some dict entry already has the entry's identity, in which case it holds the old history; every other key is unchanged |
| History.PatchExtendsHistory | utils.py:94-99 | the old history is a prefix of the new one, which grows by at most one element, and that element is the entry |
| History.PatchMissingHistory | utils.py:94 | a state without `interaction_history` is patched as if it held an empty list: the history becomes exactly `[entry]` |
| History.PatchIgnoresNonDicts | utils.py:95-98 | when no history element is a dict, the entry is always appended |
| History.DictIdsExactlyBlocking | utils.py:95-97 | the entry's identity is in `existing_ids` exactly when some dict entry of the history has that identity |
| History.BlocksAppend | utils.py:95 | appending an element to the history adds a blocking identity exactly when that element is a dict with the entry's identity |
| History.PatchAppendsUnblocked | utils.py:97-99 | an entry whose identity is not among the dict entries' identities is appended, and the new history reads back as old history plus entry |
| History.PatchSameIdentityNoop | utils.py:95-99 | after a successful patch, patching the result with any entry of the same identity returns that state unchanged |
| History.PatchIdempotent | utils.py:95-99 | patching twice with the same entry gives the same state as patching once |
| History.PatchTwiceAppendsBoth | utils.py:95-99 | two entries of different identities, neither present, are both appended in call order |
| History.Stamp | utils.py:84-86 | an entry that has a `timestamp` is used as is; otherwise a copy is used that adds `timestamp = now` as its last key and agrees with the entry on every other key |
| History.UpdateInteractionHistory | utils.py:83-102 | definition: stamp once, then the retry loop with the patch and 5 retries; its properties are `History.UpdateCommitsPatchedState` |
| History.HistoryAttemptCommits | utils.py:70-77 | with the history patch, an attempt commits exactly when its read returns, the stored history is iterable and its write succeeds, and it commits the patched state |
| History.UpdateCommitsPatchedState | utils.py:83-102 | an update commits if and only if one of attempts 1..5 goes through (read returns, history iterable, write succeeds), and then on the first such attempt; the written state is the patch, with the once-stamped entry, of the state that attempt read (or of `{}`) |
| History.AddUserQuery | utils.py:104-105 | definition of `add_user_query_to_history`; its property is `History.AddUserQueryAppends` |
| History.AddUserQueryAppends | utils.py:104-105 | a committing `add_user_query_to_history` whose read history has no entry of the same identity writes that history plus the query entry stamped with `now` |
| History.AddAgentResponse | utils.py:107-108 | definition of `add_agent_response_to_history`; its property is `History.AddAgentResponseDropsSameSecond` |
| History.AddAgentResponseDropsSameSecond | utils.py:107-108 | a committing `add_agent_response_to_history` whose read history already holds any agent response stamped at the same time writes the history back unchanged, whatever the agent and text |
| History.AgentResponseIdentity | utils.py:107-108 | an agent-response entry has neither `query` nor `course_id`, so its identity is `agent_response|<timestamp>|` whatever the agent and the text |
| History.SecondAgentResponseDropped | utils.py:107-108 | a second agent response stamped with the same time leaves the state the first one produced unchanged, whatever its agent and text |
| History.UserQueryIdentity | utils.py:104-105 | a user-query entry's identity is `user_query|<timestamp>|<query>` |
| History.UserQueryIdentitiesDiffer | utils.py:104-105 | user queries with different text have different identities even with the same timestamp |
| History.DistinctUserQueriesBothAppended | utils.py:104-105 | two user queries with different text and the same timestamp, neither already present, are both appended, in order |

## Left out

- The session service, `time.sleep` and `datetime.now()`: they are parameters. Nothing is said about how the service stores state between attempts, or whether another writer interleaves.
- The float backoff `backoff_factor * attempt`: only the attempt number of each sleep is recorded.
- The text of exception messages: an exception is modelled by its kind and, where the source passes one through, a reason string.
- Python `float` values and dict keys that are not strings: `PyValue.Value` has neither.
- `PyValue.Iterate` on strings: a Dafny character is a Unicode scalar value, so a Python `str` holding a lone surrogate code point has no counterpart in the model.
- PyValue.ToStr: never fails. Python's `str()` and f-strings raise `ValueError` for an `int` of more than 4300 digits (the default limit of recent CPython releases) and `RecursionError` on deeply nested lists or dicts; both depend on interpreter settings, so they are not modelled.
- History.Patch: "raises exactly when the stored history is not iterable" holds only within the previous line's limits; a stored entry whose identity makes `str()` raise fails the attempt in the source but not in the model.
- Session.AtomicUpdate: only `Exception` ends an attempt in the source. `KeyboardInterrupt`, `SystemExit` and `asyncio.CancelledError` escape the loop at once, and are not modelled.
- Session.AtomicUpdate: `time.sleep` is assumed to return. A negative or NaN `backoff_factor` makes it raise `ValueError` from inside the handler after the first failed attempt, with no retry; this is not modelled.
- `Repr` of strings escapes backslash, the quote character, newline, carriage return and tab. Python's `\x..`/`\u..` escapes of other non-printable characters are not modelled.
- Mutation and aliasing: the model is pure. That the caller's entry is not changed by stamping, and that the patch sees only a copy of the session state, hold because no value is ever mutated.
- `ensure_database` (SQLite file I/O), `display_state`, `process_agent_response` and `call_agent_async` (console output and async event streaming).
- The agents, their wiring and their scan-tool stubs, `main.py`, and the regulation text constants. The status escalation rules live only in prompt text given to an external language model, so there is no deterministic code to model.
