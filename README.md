# Kapten Lycel portal: redemption engine and playlist controller

This is a Dafny model of the two state machines in `App.tsx` of the Kapten Lycel
voucher portal.

- **The redemption engine.** A user types a voucher code. The portal trims it,
  upper-cases it and checks it against the ledger of codes already burned on this
  device. It then looks the code up in the code table, where the first matching row
  wins. A granted code is appended to the ledger, and the whole ledger is written
  to the key-value store under `kapten_lycel_used_codes`. Verification happens in
  two steps. The click (`BeginVerify`) sets `loading` and schedules a continuation.
  The 1.5 s timer continuation (`CompleteVerify`) resolves the code to
  `already-used`, `success` (which reveals the row's output code) or `invalid`.
  `clearHistory` empties the ledger and removes the store key. `reset` discards the
  session and keeps the ledger.
- **The playlist controller** (`TechAudio`). It holds the current track id and the
  mute, loop and shuffle flags over the fixed five-track playlist. It also holds at
  most one live audio handle. `init` resolves an id, falling back to the first track
  for an unknown one, and replaces the handle. `nextTrack` either shuffles among the
  other tracks or advances in order, wrapping after the last track. At track end the
  controller advances only when loop is off.

Modules:

- `Types` (types.dfy): the record and enum shapes of `types.ts`.
- `Text` (text.dfy): `trim` and `toUpperCase`.
- `Redemption` (redemption.dfy): the pure lookup and ledger functions, plus the
  `Portal` class for the handlers' state.
- `Playback` (playback.dfy): the pure track functions, plus the `TechAudio` class.

The handlers' state is modelled as follows:

- **Store.** The browser store is a `map<string, seq<string>>`. The JSON encoding
  is taken as exact, so writing a list and reading it back gives the same list.
- **Valid() invariant.** `Portal.Valid()` says the store always reloads to the
  in-memory ledger, which is the persistence round trip.
- **Continuation queue.** `reset` clears `loading` but does not cancel a scheduled
  timer, so scheduled continuations are a FIFO queue `pending`. They fire in
  scheduling order because all of them have the same delay.
- **Shuffle choice.** `Math.floor(Math.random() * n)` is an injected index
  `pick < |playlist| - 1`.

Three details of `App.tsx` shape the model:

- The consumed codes are an ordered list, and nothing checks it for duplicates when
  it is loaded.
- The input is trimmed and tested for emptiness before it is upper-cased.
- A stored ledger that is not valid JSON makes `JSON.parse` throw, because the call is
  outside the `try` block; it does not yield an empty list. See Left out.

## Model

| member | source | states |
|---|---|---|
| `Text.LeadingSpaces` | App.tsx:136 | every character it counts from the front is whitespace, and the next character is not |
| `Text.TrailingSpaces` | App.tsx:136 | every character it counts from the back is whitespace, and the one before them is not |
| `Text.Trim` | App.tsx:136 | the result is empty exactly when the input is whitespace only; otherwise it starts and ends with a non-whitespace character; it is a slice of the input with only whitespace cut from either end |
| `Text.UpperChar` | App.tsx:142 | a lower-case ASCII letter becomes its capital (code point minus 32); every other character is kept; whitespace stays whitespace |
| `Text.Upper` | App.tsx:142 | same length; every lower-case ASCII letter becomes its capital, every other character is kept as it is, so no lower-case letter remains and whitespace stays where it was |
| `Text.UpperEqual` | App.tsx:142-148 | two strings upper-case to the same string exactly when they have the same length and agree position by position up to ASCII case |
| `Text.Normalize` | App.tsx:136-142 | the normalised input is no longer than the raw input, holds no lower-case letter, and neither starts nor ends with whitespace |
| `Text.TrimOfTrimmed` | App.tsx:136 | a string with no whitespace at either end is its own trim |
| `Text.TrimIdempotent` | App.tsx:136 | trimming twice is trimming once |
| `Text.UpperIdempotent` | App.tsx:142 | upper-casing twice is upper-casing once |
| `Text.NormalizeIdempotent` | App.tsx:136-142 | a normalised code (trim, then upper-case) normalises to itself |
| `Text.NormalizeEmpty` | App.tsx:136-137 | the normalised input is empty exactly when the raw input is whitespace only |
| `Redemption.LoadTable` | App.tsx:117-124 | a loaded table is used as it is; a failed load gives exactly `[{"123456", "SAMPLE"}]` |
| `Redemption.LoadLedger` | App.tsx:125-126 | an absent key gives the empty ledger; otherwise the ledger is the stored list |
| `Redemption.Persist` | App.tsx:150-152 | reading the ledger back after the write gives the written list; every other store key is untouched |
| `Redemption.Erase` | App.tsx:169 | the key is gone, so the ledger reads back as empty; every other store key is untouched |
| `Redemption.Matches` | App.tsx:148 | a row matches only a code of its input code's length that holds no lower-case letter |
| `Redemption.MatchesIgnoringCase` | App.tsx:136-148 | typed input matches a row exactly when, once trimmed, it spells the row's input code up to ASCII case |
| `Redemption.FindIndex` | App.tsx:148 | returns the index of the first row whose upper-cased input code equals the code, or nothing when no row matches |
| `Redemption.Resolve` | App.tsx:142-156 | already used exactly when the code is in the ledger; no match exactly when it is not in the ledger and no row matches; a grant reveals the output code of the first matching row |
| `Redemption.LedgerAfter` | App.tsx:149-151 | the old ledger is a prefix of the new one; it grows by at most one code, exactly on a grant, and that code is the one redeemed; a duplicate-free ledger stays duplicate-free |
| `Redemption.GrantedThenBurned` | App.tsx:143-151 | once a code is granted, verifying it again resolves to already used |
| `Redemption.FirstRowWins` | App.tsx:148 | when several rows match, the earliest one decides the revealed code |
| `Redemption.ClearedCodeIsFresh` | App.tsx:166-171 | against the cleared ledger, a code resolves exactly as against any ledger that never held it |
| `Redemption.ClearedLedgerStaysCleared` | App.tsx:166-171 | after a clear, a completed verification leaves at most the code it just redeemed in the ledger |
| `Redemption.StaleLedgerAfter` | App.tsx:141-152 | as written: a granted continuation writes the ledger it captured when scheduled, plus the code, over the current ledger |
| `Redemption.StaleLedgerResurrectsCleared` | App.tsx:143-152 | the as-written continuation puts a cleared code back into the ledger; the corrected one does not |
| `Redemption.SampleGranted` | App.tsx:123 | with the fallback table, "123456" is granted "SAMPLE" against an empty ledger |
| `Redemption.SampleNoMatch` | App.tsx:123 | with the fallback table, every other code not in the ledger is invalid |
| `Redemption.Portal.constructor` | App.tsx:109-126 | the table is the loaded table or the fallback; the ledger is the stored list, or empty when the key is absent; the session is idle and not loading |
| `Redemption.Portal.EditInput` | App.tsx:329 | the input is replaced and the status goes back to idle; nothing else changes |
| `Redemption.Portal.BeginVerify` | App.tsx:136-141 | an input that trims to nothing, or a portal already loading, is a no-op; otherwise `loading` is set and one continuation for the trimmed input is queued; the ledger, the store and the table are untouched |
| `Redemption.Portal.CompleteVerify` | App.tsx:141-157 | the code is the upper-cased trimmed input. Already used: status `already-used`, result null, ledger and store unchanged. Granted: status `success`, result is the first matching row's output code, ledger is the old one plus the code, store holds the new ledger. No match: status `invalid`, result null, ledger and store unchanged. In every case `loading` is cleared and the store still reloads to the ledger |
| `Redemption.Portal.ClearHistory` | App.tsx:166-171 | the ledger is empty and the store key is removed, both together; the session is untouched |
| `Redemption.Portal.Reset` | App.tsx:173-176 | input, result, status (to idle) and `loading` are reset; the ledger and store are untouched |
| `Redemption.Attempt` | App.tsx:135-158 | one type-click-fire round on an idle portal yields the status, result and ledger that `Resolve` and `LedgerAfter` prescribe for the normalised input |
| `Redemption.Redeem` | App.tsx:147-152 | a round whose code resolves to a row shows `success` with that row's output code and appends exactly the normalised code to the ledger; the table is untouched |
| `Redemption.Replay` | App.tsx:141-145 | a round whose normalised code is already in the ledger shows `already-used` with no result and leaves the ledger and the table as they were |
| `Redemption.Mistype` | App.tsx:147-155 | a round whose fresh code matches no row shows `invalid` with no result and leaves the ledger and the table as they were |
| `Redemption.SampleSession` | App.tsx:123-158 | with the fallback table and an empty store: "123456" succeeds revealing "SAMPLE", the same code again is already used, "999999" is invalid |
| `Playback.IndexOf` | App.tsx:72 | -1 exactly when no track has the id; otherwise the first position holding it |
| `Playback.ResolveTrack` | App.tsx:38 | a playlist track; the track with the id when there is one, otherwise the first track |
| `Playback.SequentialNext` | App.tsx:72-73 | a playlist id: the track after the current one, the first track after the last one, and the first track for an unknown id |
| `Playback.Others` | App.tsx:69 | exactly the playlist tracks whose id differs from the current one |
| `Playback.ShuffleNext` | App.tsx:69-70 | the shuffle pick is a playlist id other than the current one |
| `Playback.ShuffleCovers` | App.tsx:69-70 | with distinct ids, every track other than the current one is the shuffle outcome of some pick |
| `Playback.DistinctPlaylist` | App.tsx:15-21 | the five playlist ids are pairwise distinct |
| `Playback.IndexOfDistinct` | App.tsx:72 | with distinct ids, `findIndex` of a track's id is its own position |
| `Playback.SequentialNextAt` | App.tsx:72-73 | with distinct ids, the next id after position `i` is at `i + 1`, or at 0 after the last position |
| `Playback.OthersWithoutCurrent` | App.tsx:69 | when no track has the current id, the filter keeps the whole playlist |
| `Playback.OthersCount` | App.tsx:69 | with distinct ids and the current id present, shuffle chooses among all tracks but one |
| `Playback.AdvanceCycles` | App.tsx:72-73 | `k` sequential advances from position `i` land on position `(i + k) mod n` |
| `Playback.AdvancePeriodic` | App.tsx:72-73 | a full lap of `n` advances returns to the same track |
| `Playback.AdvanceVisitsAll` | App.tsx:72-73 | every track is reached from every track in fewer than `n` advances |
| `Playback.TechAudio.constructor` | App.tsx:29-35 | track "1", all flags off, no live handle |
| `Playback.TechAudio.Init` | App.tsx:37-57 | the current id is the given id when the playlist has it, and the first track's id otherwise; the old handle is paused and released; the one new handle plays that track with the current loop and mute flags; the flags do not change |
| `Playback.TechAudio.NextTrack` | App.tsx:66-77 | returns the id reported to the view, which becomes the current id. With shuffle on it is entry `pick` of the other tracks and never the current id; otherwise it is the sequential successor. The track then starts as `Init` does |
| `Playback.TechAudio.TrackEnded` | App.tsx:53-57 | when looping, nothing changes; otherwise the new id is reported and becomes current (the sequential successor, or shuffle entry `pick`), the old handle is released, and one new handle plays the new track with the current loop and mute flags |
| `Playback.TechAudio.SetMute` | App.tsx:79-82 | only the muted flag changes, mirrored onto the live handle if there is one |
| `Playback.TechAudio.SetLoop` | App.tsx:84-87 | only the loop flag changes, mirrored onto the live handle if there is one |
| `Playback.TechAudio.SetRandom` | App.tsx:89-91 | only the shuffle flag changes; the current track and the handle stay |
| `Playback.SkipFromThree` | App.tsx:66-77 | starting on track "3" with shuffle off, five skips give "4", "5", "1", "2", "3" |

## Left out

- The JSX views, navigation, `PROMOS`, the instructions modal, the newest-first
  history list and `copyToClipboard`: presentation only.
- `fetch('./codes.json')` and `response.json()`. The table load is an
  `Option<seq<WifiCodeRecord>>` input, where `None` stands for any failure. JSON
  that parses but is not a list of records is not modelled.
- A stored ledger that is not valid JSON. `JSON.parse` at App.tsx:126 is outside the
  `try` and would throw, leaving the in-memory ledger empty and the store as it was.
  The store here holds lists only, so that case cannot be expressed.
- The 1.5 s `setTimeout` delay. It is replaced by the explicit `BeginVerify` /
  `CompleteVerify` split.
- React state batching.
- `Redemption.Portal.CompleteVerify`: it reads the ledger and the table as they are
  when the continuation fires. The source reads the copies captured when the click
  was handled; see Findings for where the two differ.
- The `confirm()` dialog. `ClearHistory` is the action after the user has confirmed.
- `Text.Upper`: only the ASCII letters `a`-`z` are upper-cased. Unicode case
  mappings are not modelled, including those that change the length (`ß` to `SS`).
- `Text.Trim`: it removes the ECMAScript whitespace and line-terminator characters
  as Unicode scalar values. UTF-16 code units are not modelled.
- `HTMLAudioElement`: `play()`, the autoplay-blocked catch, the 0.2 volume,
  `crossOrigin` and `src` loading. These are browser I/O. The handle is an abstract
  value recording its source and its loop and muted flags.
- `Math.random()`: replaced by the injected index `pick`.
- `onTrackChange`: `NextTrack` returns the id it would pass to the callback. The
  App-level mirrors of the flags (`toggleMute`, `toggleLoop`, `toggleRandom`,
  `playTrack`) are not modelled. `enterSystem` is `Init(DefaultTrackId)`.

## Findings

| source | as written | input that shows it | evidently intended | confidence | as-written member | corrected member |
|---|---|---|---|---|---|---|
| App.tsx:141-152 | the timer continuation checks and extends the `usedCodes` array captured when the click was handled, and writes `[...captured, code]` to state and storage | ledger `["111111"]`; click with `123456` (the sample table); clear history within the 1.5 s; the continuation fires and writes `["111111", "123456"]` | clearing history is permanent: afterwards the ledger holds only codes redeemed since, here `["123456"]` | not executed; medium (needs the user to open History and confirm the clear during the delay) | `Redemption.StaleLedgerAfter`, `Redemption.StaleLedgerResurrectsCleared` | `Redemption.LedgerAfter`, `Redemption.ClearedLedgerStaysCleared` |
