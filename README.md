# Aesthetic-transfer Telegram bot: session state and composition pipeline

This project models the core of a Telegram bot that transfers the "mood" of a set of
style reference images onto a subject photo with an image-generation model. The bot keeps
two pieces of state for each chat:

- its style references, oldest first;
- a "set style" flag. While the flag is on, every incoming photo is stored as a reference.

Each incoming photo goes one of two ways:

- It is **saved** as a reference when the flag is on, or when its caption (stripped and
  lowercased) contains one of `add`, `ref`, `style`, `salva`, `mood` as a substring.
- Otherwise it is the **subject**. The request sent to the model is the fixed instruction,
  then the subject, then at most ten references in stored order. The reply is the first
  response part that carries an image. Otherwise it is an empty-result reply, a quota reply
  (when the error text contains `429` or `RESOURCE_EXHAUSTED`), or a generic error reply.

The repository has two near-copies of this logic, and both are modelled:

- `api/index.py` is the webhook variant. It keeps references as Telegram file ids in a
  process-wide dictionary: class `MemoryStore.Bot`.
- `main.py` is the polling variant. It writes each reference as `{chat_id}_{ts}.jpg` into a
  `styles` directory and lists a chat's references by glob, sorted by name. Its flag lives
  in memory only: class `DiskStore.Bot`.

The shared pure parts are in separate modules:

- `Caption`: Python's `strip()`, `lower()` and substring `in`; the keyword test; the
  save-or-subject decision.
- `Compose`: the reference cap, the request payload, the scan of the response parts and the
  error classifier.
- `FileNames`: decimal text of chat ids and timestamps, the saved file name and the two glob
  patterns.
- `Listing`: Python's string order and `sorted()` over a set of names.

The generation call is a function parameter `generate` from the payload to a response:
either a list of parts, each maybe carrying an image, or the text of the raised exception.
Each photo handler also returns the request it builds, as an `Option`. `None` means the photo
was saved, or no reference was stored. `Some` means the subject path reached the request,
whether or not the call itself was made (see "Left out" for failures before the call).

Where the two variants differ, or where the code departs from its own comments:

- `api/index.py` caps the references at ten silently. Only `main.py` sends a truncation notice.
- In `main.py` the order of references is the order of file names, not of insertion. The two
  agree while timestamps have the same number of digits (`DiskStore.SaveOrderIsUseOrder`).
  `DiskStore.WiderTimestampSortsFirst` shows that they disagree once a timestamp gains a digit.
  Millisecond timestamps keep 13 digits from 2001 to 2286.
- `main.py`'s `/clear_style` skips files whose removal fails. Those files stay listed.
- A comment in `main.py` speaks of a limit of 14 references. The code caps at 10, and so does
  the model.

## Model

| member | source | states |
|---|---|---|
| `Caption.Classify` | api/index.py:83-93 | a photo is saved iff the mode is on or the normalised caption holds a keyword; the "caption recognised" variant fires iff a keyword matched and the mode was off |
| `Caption.SaveIffModeOrKeyword` | main.py:110-113 | the decision equals "mode on, or some keyword occurs in the lowercased caption": stripping never changes it, because no keyword contains whitespace |
| `Caption.ContainsIff` | api/index.py:84 | Python's substring test `w in s` holds iff `w` occurs in `s` at some index |
| `Caption.ContainsIgnoresPadding` | api/index.py:83-84 | whitespace around a text neither hides nor creates an occurrence of a whitespace-free word |
| `Caption.StripBounds` | api/index.py:83 | `strip()` keeps the unique infix whose surroundings are all whitespace and whose ends are not whitespace |
| `Caption.Lower` | main.py:110 | `lower()` keeps the length, maps each character by its ASCII lowercase (`LowerChar`), keeps the whitespace positions and leaves no upper-case ASCII letter |
| `Caption.AnyContained` | main.py:111 | `any(word in text for word in words)` holds iff some word of the list occurs in the text |
| `Caption.ModeOnSavesUncaptioned` | main.py:110-113 | with the mode on, a photo without a caption is saved, and not via its caption |
| `Caption.KeywordCaptionSaves` | api/index.py:83-91 | with the mode off, the caption "please ADD to mood" saves the photo through the caption variant |
| `Caption.NoKeywordInitialIsSubject` | api/index.py:83-96 | with the mode off, a lowercase caption without surrounding whitespace in which no keyword's first letter (a, r, s, m) appears makes the photo a subject |
| `Caption.PlainCaptionIsSubject` | api/index.py:83-96 | with the mode off, the caption "nice photo" makes the photo a subject |
| `Compose.LoadReferences` | api/index.py:113-117 | the references sent are the first min(n, 10) stored ids, in stored order |
| `Compose.CapReferences` | main.py:148-154 | the selection is the first min(n, 10) references in order; the truncation notice is sent iff more than 10 are stored |
| `Compose.PayloadShape` | api/index.py:119-124 | the payload starts with the instruction, has 2 + n entries, and the model sees the subject first and then the references in the given order |
| `Compose.FirstImageIsFirst` | main.py:171-178 | the scan returns the earliest image-bearing part, and nothing only when no part bears an image |
| `Compose.InterpretResponse` | api/index.py:135-154 | the loop with `break` chooses the reply that `ResponseOutcome` prescribes for the response |
| `Compose.ResponseOutcomeCases` | main.py:171-198 | the reply is an image iff some part carries one (the earliest such part); empty-result iff no part does; quota iff the error text contains "429" or "RESOURCE_EXHAUSTED"; otherwise the generic reply with the error text |
| `Compose.ErrorExamples` | main.py:185-198 | "429 Too Many Requests" gives the quota reply, "timeout" gives the generic reply, and parts without an image give the empty-result reply |
| `MemoryStore.Bot.constructor` | api/index.py:33-36 | a chat never touched has no references and the mode off |
| `MemoryStore.Bot.SetStyle` | api/index.py:53-59 | turns the mode on for that chat only; no reference list changes |
| `MemoryStore.Bot.DoneStyle` | api/index.py:61-65 | turns the mode off for that chat only, leaves the references alone and reports their number |
| `MemoryStore.Bot.ClearStyle` | api/index.py:67-70 | empties that chat's list; other chats and every mode flag are unchanged |
| `MemoryStore.Bot.Status` | api/index.py:72-75 | reports the chat's number of references (0 after ClearStyle) |
| `MemoryStore.Bot.HandleImage` | api/index.py:77-154 | save: the list becomes old + [file id] (duplicates kept), the count is old length + 1 and the mode is unchanged; subject with no references: guidance, no request, no state change; otherwise the request is instruction, subject, first min(n, 10) references, the list is not modified, and the reply follows from the response |
| `DiskStore.Bot.constructor` | main.py:33-38 | files saved by earlier runs persist, while every chat starts with the mode off |
| `DiskStore.Bot.GetStyleImages` | main.py:40-47 | returns exactly the directory's names matching `{chat}_*.jpg` or `{chat}_*.png`, in strictly ascending order |
| `DiskStore.Bot.SetStyle` | main.py:62-70 | turns the mode on for that chat only; the directory is untouched |
| `DiskStore.Bot.DoneStyle` | main.py:72-77 | turns the mode off for that chat only, leaves the directory alone and reports the chat's number of files |
| `DiskStore.Bot.ClearStyle` | main.py:79-88 | removes exactly the chat's listed files except those whose removal fails; other chats' files and the mode are unchanged |
| `DiskStore.Bot.Status` | main.py:90-97 | the "none saved" reply iff the chat has no file, otherwise the number of its files |
| `DiskStore.Bot.StoreReference` | main.py:113-120 | adds `{chat}_{ts}.jpg` only; the count grows by one unless a file of the same millisecond is overwritten; other chats' files are unchanged; a name sorting after the existing ones becomes the last reference |
| `DiskStore.Bot.HandleImage` | main.py:99-198 | save: as StoreReference, with the caption variant iff the keyword fired with the mode off; subject with no files: guidance, no request; otherwise the request is instruction, subject, the first min(n, 10) files by name, a notice iff more than 10, and the reply follows from the response |
| `DiskStore.SaveCounts` | main.py:115-120 | saving grows the chat's files by one, or by none on a same-millisecond collision, and changes no other chat's files |
| `DiskStore.SaveEffects` | main.py:113-120 | after a save, the chat's file count follows the collision rule, other chats' files are unchanged, and a name that sorts after the existing ones is appended to the listing |
| `DiskStore.SaveAppendsWhenNameSortsLast` | main.py:47 | a new name that sorts after the chat's existing names lands at the end of the listing |
| `DiskStore.SaveOrderIsUseOrder` | main.py:116-117 | if the chat's files were all saved at earlier timestamps with the same number of digits, the new photo becomes the last reference |
| `DiskStore.LaterTimestampSortsLater` | main.py:116 | of two timestamps with the same number of digits, the later one has the later decimal text |
| `DiskStore.WiderTimestampSortsFirst` | main.py:47 | "1_1000.jpg" sorts before "1_999.jpg": a later save whose timestamp has one more digit is listed first |
| `FileNames.IntToStringRoundTrip` | main.py:117 | the decimal text of a chat id reads back as that id, so distinct chats get distinct prefixes |
| `FileNames.StyleFileOwnerUnique` | main.py:42-43 | a name matches the patterns of at most one chat |
| `FileNames.StyleFileNameOwner` | main.py:117 | a saved file is listed for its own chat and for no other |
| `Listing.SortedNames` | main.py:47 | `sorted()` of a set of names has exactly those names, once each, in strictly ascending order |
| `Listing.SortedUnique` | main.py:47 | a strictly sorted sequence is determined by its elements |
| `Listing.LexTotal` | main.py:47 | Python's string order is total: of two distinct strings one is smaller |
| `Listing.LexTransitive` | main.py:47 | Python's string order is transitive |

## Left out

- The Telegram transport is not modelled: message replies, file download, command registration, `post_init`, `main` and `start`. Only the reply variant is kept. The Italian texts are not.
- The Gemini client and the request configuration are not modelled. The generation call is the `generate` parameter.
- The webhook `handler` class and its per-request event loop are not modelled. Neither are env loading, logging and `os.makedirs`.
- PIL decoding and encoding are not modelled, and references are never downloaded. A `Raised` response stands for any exception inside the handlers' `try` block: a download, a decode, the generation call or the photo reply.
- `MemoryStore.Bot.HandleImage`: a failure while downloading or decoding the subject or a reference (api/index.py:108-117) is reported as if the generation call had raised it. In the source no call is made then, but the model still returns `request` as `Some`. The error reply is the same.
- `DiskStore.Bot.HandleImage`: a failure while opening a stored file (main.py:148, which opens every file, not only the first ten) is reported as if the generation call had raised it. In the source no call is made and no truncation notice is sent then, but the model still returns `request` as `Some` and sets `truncated` when more than 10 files are stored. The error reply is the same.
- `DiskStore.Bot.HandleImage`: main.py downloads and decodes every incoming photo before classifying it (main.py:104-108). That download sits outside the `try`, and its failure is not modelled.
- The styles directory is a set of names. The `styles/` path prefix is dropped because every name shares it, so it does not change the sort order. Real `glob` and `os.remove` are not modelled. A removal failure is the `failing` parameter of `DiskStore.Bot.ClearStyle`.
- `time.time()` is not modelled: the millisecond timestamp is the parameter `ts`.
- `Caption.Lower`: only ASCII `A`–`Z` are folded, and `Caption.IsSpace` knows only the ASCII whitespace of `str.isspace()`. The keywords contain no whitespace (`Caption.SaveIffModeOrKeyword`), so stripping non-ASCII whitespace could not change the decision.
- Reading a `defaultdict` inserts the default value for a missing key. The model does not do this. Nothing can observe it, because `RefsOf` and `ModeOf` read a missing chat as the default.
- Concurrency is not modelled: each chat's updates are handled one at a time.
