# chatgpt_to_md: the per-conversation renderer, in Dafny

This project models `_convert_single` from `src/chatgpt_to_md/core.py`. The
function takes one conversation record of a ChatGPT data export and produces
a Markdown file: a file name built from the local creation date and a
sanitised title, and a document made of YAML front matter, a title heading
and one section per message.

The model keeps the source's structure:

- `Core.ConvertSingle` is the renderer. It is a method that builds the file
  name, appends the header lines one by one, collects the messages, sorts
  them in place and appends four lines per message. Instead of writing the
  file it returns the file name and the text it would write.
- `Core.ExtractMessages` is the loop over the `mapping` dictionary (its
  entries in iteration order). `Messages.SortByTimestamp` is the in-place
  stable sort of `list.sort`, over an `array`. `Core.AppendMessages` is the
  rendering loop.
- Each loop is proved against a specification function: `Core.Kept`,
  `Messages.StableSort` and `Core.Sections`. The document as a whole is
  `Core.Document`, and the lemmas state what the source promises about it.

How the inputs are encoded:

- Every test of a JSON value for truth (`if value`, `msg.get('content')`,
  `if create_time`) is read through `Option`. `None` stands for every falsy
  value at that place: a missing key, `null` or an empty object.
- A timestamp is "truthy" when it is present and non-zero
  (`Core.Truthy`). The sort key `msg.get('create_time') or 0` is
  `Core.TimeKey`.
- Host-local date formatting (`datetime.fromtimestamp` followed by
  `strftime`) depends on the host's time zone. The renderer therefore
  receives it as a parameter, `Core.LocalClock`, which holds one function
  for `%Y-%m-%d` and one for `%Y-%m-%d %H:%M:%S`.
- `str.strip()` is Python's. It removes the characters for which
  `str.isspace()` holds (`PyText.Whitespace`) from both ends.

The title follows the code: `conversation.get('title', '未命名对话')` uses the
placeholder only when the `title` key is missing. A present but empty title
stays empty, which gives the file name `.md` (or `<date>_.md`) and the
front-matter line `title: `; it is not replaced by the placeholder.

## Model

| member | source | states |
|---|---|---|
| Core.Sanitize | src/chatgpt_to_md/core.py:60 | every character of `<>:"/\|?*` becomes `_`, one for one, every other character is kept, and the result holds no forbidden character |
| Core.FileNameLayout | src/chatgpt_to_md/core.py:56-65 | the file name is the local date and `_` (exactly when `create_time` is truthy), then the sanitised title, then `.md` |
| Core.FileNameIsSafe | src/chatgpt_to_md/core.py:60-67 | when the date string holds no forbidden character, neither does the file name, so it names a file directly inside the output directory |
| Core.WorkedFileName | src/chatgpt_to_md/core.py:56-63 | the title `Test/Chat` created at 1700000000 gives `<local date>_Test_Chat.md` |
| Core.PartsBlank | src/chatgpt_to_md/core.py:89-92 | `''.join(parts)` (with a missing `parts` taken as `['']` and an empty list as `''`) is blank exactly when no part has a non-whitespace character |
| Core.KeepNodeIncluded | src/chatgpt_to_md/core.py:86-98 | a mapping value yields a message exactly when the value, its message, the message's `content` and `author` are truthy and some part is not blank; the message carries the author's role, `create_time or 0` and the stripped text, which is non-empty and has no whitespace at either end |
| Core.WorkedMessage | src/chatgpt_to_md/core.py:86-98 | a user message with the text ` Hello\n` is kept as `Hello` with its own creation time |
| Core.ExtractMessages | src/chatgpt_to_md/core.py:84-98 | the extraction loop collects, in mapping order, exactly the messages `Core.Kept` selects |
| Core.KeptCount | src/chatgpt_to_md/core.py:84-98 | each included mapping value contributes exactly one message and no other value contributes any |
| Wrappers.FilterMapMembers | src/chatgpt_to_md/core.py:84-98 | a message is collected exactly when some mapping value produces it |
| Wrappers.FilterMapAppend | src/chatgpt_to_md/core.py:84-98 | collecting over two consecutive runs of the mapping is the concatenation of the two collections |
| PyText.Strip | src/chatgpt_to_md/core.py:92-97 | `str.strip()`: the result is a contiguous run of the text with only whitespace before and after it; it is empty exactly when the text is all whitespace, and otherwise neither starts nor ends with whitespace |
| PyText.StripUnique | src/chatgpt_to_md/core.py:92-97 | those properties pin the result down: any run of the text with only whitespace around it and no whitespace at its ends is the stripped text, so the rest of the text is kept verbatim |
| PyText.ConcatBlank | src/chatgpt_to_md/core.py:91-92 | the joined parts are all whitespace exactly when every part is |
| Messages.Insert | src/chatgpt_to_md/core.py:101 | inserting a message into a sorted list adds one element, at the front or after the first message, and keeps the list sorted |
| Messages.InsertTies | src/chatgpt_to_md/core.py:101 | inserting adds only that message and puts it ahead of the messages already there with the same timestamp (the message came earlier in the input) |
| Messages.StableSort | src/chatgpt_to_md/core.py:101 | the result is sorted by timestamp and the messages of each timestamp keep their original order |
| Messages.SortByTimestamp | src/chatgpt_to_md/core.py:101 | the in-place sort leaves the array sorted, a permutation of the input with ties in input order, equal to `StableSort` of the input |
| Messages.SinkLeft | src/chatgpt_to_md/core.py:101 | one insertion pass gives the whole new array: the message at `i` lands at `k`, the messages it passed all have strictly larger timestamps and shift one place right, it stops behind a message no later than itself, and everything else is unchanged |
| Messages.Sunk | src/chatgpt_to_md/core.py:101 | after such a pass the array is the original with one message moved, its prefix through `i` is sorted, and every tie group keeps its order |
| Messages.MoveKeepsTies | src/chatgpt_to_md/core.py:101 | moving a message left past messages whose timestamps all differ from its own keeps the order within each timestamp |
| Messages.NoTies | src/chatgpt_to_md/core.py:101 | a run with no message of timestamp `t` has an empty tie group for `t` |
| Messages.WithTimeAppend | src/chatgpt_to_md/core.py:101 | the messages with a given timestamp in a concatenation are those of each part, in order |
| Messages.FirstIsSmallest | src/chatgpt_to_md/core.py:101 | the first message of a sorted list has the smallest timestamp present |
| Messages.TiesDetermineSorted | src/chatgpt_to_md/core.py:101 | two sorted lists with the same messages per timestamp, in the same order, are equal: a stable sort has only one possible result |
| Messages.CountInTies | src/chatgpt_to_md/core.py:101 | a message occurs as often in a list as among the messages sharing its timestamp |
| Messages.SameTiesPermutation | src/chatgpt_to_md/core.py:101 | keeping the order within each timestamp implies a permutation: nothing is dropped or duplicated |
| Core.RenderedMessages | src/chatgpt_to_md/core.py:84-102 | the rendered messages are a permutation of the kept ones, sorted by timestamp with ties in mapping order, and a message is rendered exactly when a mapping value produces it |
| Core.DisplayName | src/chatgpt_to_md/core.py:103-108 | `user`, `assistant`, `system` and `tool` are shown as `我`, `ChatGPT`, `系统` and `工具`; any other role is shown as it is |
| Core.SectionsLayout | src/chatgpt_to_md/core.py:102-113 | each message takes four lines in message order: `## ` and its display name, a blank line, its text, a blank line |
| Core.AppendMessages | src/chatgpt_to_md/core.py:102-113 | the rendering loop appends exactly the message lines of the sorted messages after the existing lines |
| Core.HeaderLayout | src/chatgpt_to_md/core.py:56-81 | the header opens with `---` and the raw, unsanitised title, has a `date:` line exactly when `create_time` is truthy (third, with the local date and time), then `source: ChatGPT Export`, `---` and the `#` title heading |
| Core.DocumentLayout | src/chatgpt_to_md/core.py:70-113 | the document lines are the header (six lines with a date, five without) followed by four lines per included mapping value, in rendered order |
| Core.DocumentText | src/chatgpt_to_md/core.py:116-117 | the text written is the joined header, then, when any message is rendered, a newline and the joined message lines |
| Core.NothingIncludedOnlyHeader | src/chatgpt_to_md/core.py:84-117 | a conversation with no included mapping value (an empty or missing mapping among them) renders as the header alone |
| Core.WorkedDocument | src/chatgpt_to_md/core.py:84-117 | a conversation with one user message ` Hello\n` renders as its header followed by `## 我`, a blank line, `Hello` and a blank line |
| Core.ConvertSingle | src/chatgpt_to_md/core.py:54-119 | the renderer returns exactly `Core.FileName` and `Core.Document` of the conversation, the properties of which are the lemmas above |

## Left out

- `convert`, `_find_conversations_json` and `main` are not part of this model. They cover zip extraction, directory creation, the directory walk, JSON parsing, the per-conversation exception handler, the success counter and the command line, all of which are I/O or operating-system services.
- The file write (`open(filepath, 'w')`), the path join with the output directory and the `已创建` console line are left out as I/O. `Core.ConvertSingle` returns the file name and the content instead of writing them.
- Local-time formatting (`datetime.fromtimestamp`, `strftime`) depends on the host's time zone. It is a parameter (`Core.LocalClock`), not a computed calendar.
- Core.LocalClock: its two functions are total, so the range errors of `datetime.fromtimestamp` are not modelled. For a well-typed timestamp outside the platform's range (year 10000 and later, for example), Python raises `ValueError`, `OSError` or `OverflowError` at core.py:62 before any file is written, and `convert` counts the conversation as failed. `Core.ConvertSingle` instead returns a file name and document for such a conversation.
- Timestamps are mathematical reals, not IEEE doubles. Comparisons and the test against zero are modelled; rounding is not.
- Exceptions raised by ill-typed JSON are not modelled. These include a `null` or non-string title, an `author` without `role`, non-string `parts` and non-numeric timestamps. Their inputs are not expressible in the datatypes, because the model's records carry only well-typed fields.
- Messages whose `content` has no `parts` key are modelled (they join to `''` and are skipped). Parts that are objects rather than strings are not.
- Core.FileNameIsSafe: it assumes the date string holds no forbidden character rather than deriving this from `strftime('%Y-%m-%d')`, because the date formatting is a parameter.
