/** The per-conversation renderer `_convert_single` of
    src/chatgpt_to_md/core.py: one conversation record of a ChatGPT export
    becomes an output file name and a Markdown document. */
module Core {
  import opened Wrappers
  import opened PyText
  import opened Messages

  /* Conversation records, as far as the renderer reads them. Wherever the
     renderer tests a JSON value for truth, `None` stands for every falsy value
     there (the key missing, `null`, an empty object). */

  /** `author` of a message: only its `role` is read. */
  datatype Author = Author(role: string)

  /** `content` of a message: only `parts` is read; `None` when the key is missing. */
  datatype Content = Content(parts: Option<seq<string>>)

  /** `message` of a mapping node. `createTime` is `None` when missing or `null`. */
  datatype Message = Message(author: Option<Author>, content: Option<Content>, createTime: Option<real>)

  /** A non-empty node object of `mapping`; `message` is `None` when missing or falsy. */
  datatype Node = Node(message: Option<Message>)

  /** One `(key, value)` pair of `mapping`, in the dictionary's iteration order;
      `node` is `None` when the value is falsy. */
  datatype Entry = Entry(id: string, node: Option<Node>)

  /** A conversation record. `title` is `None` only when the key is missing;
      `createTime` is `None` when missing or `null`; a missing `mapping` is the
      empty sequence. */
  datatype Conversation = Conversation(title: Option<string>, createTime: Option<real>, mapping: seq<Entry>)

  /** Host-local formatting of a Unix timestamp, `datetime.fromtimestamp(t)`
      followed by `strftime('%Y-%m-%d')` and `strftime('%Y-%m-%d %H:%M:%S')`.
      It depends on the host's time zone, so the renderer receives it. */
  datatype LocalClock = LocalClock(date: real -> string, dateTime: real -> string)

  const Untitled: string := "未命名对话"

  /** Python truth of an optional number: present and non-zero. */
  predicate Truthy(t: Option<real>) {
    t.Some? && t.value != 0.0
  }

  /** `msg.get('create_time') or 0`: the sort key of a message. */
  function TimeKey(t: Option<real>): real {
    if Truthy(t) then t.value else 0.0
  }

  /** The characters `re.sub(r'[<>:"/\\|?*]', '_', title)` replaces. */
  predicate IsForbidden(c: char) {
    c in {'<', '>', ':', '"', '/', '\\', '|', '?', '*'}
  }

  /** The safe title: every forbidden character becomes `_`, one for one, and
      every other character is kept, so no forbidden character is left. */
  function Sanitize(title: string): (safe: string)
    ensures |safe| == |title|
    ensures forall i :: 0 <= i < |title| ==> safe[i] == (if IsForbidden(title[i]) then '_' else title[i])
    ensures forall i :: 0 <= i < |safe| ==> !IsForbidden(safe[i])
  {
    if title == [] then []
    else [if IsForbidden(title[0]) then '_' else title[0]] + Sanitize(title[1..])
  }

  /** `conversation.get('title', '未命名对话')`: the placeholder only when the key
      is missing; a present empty title stays empty. */
  function TitleOf(conv: Conversation): string {
    conv.title.GetOr(Untitled)
  }

  /** The output file name: the local date and `_` when `create_time` is truthy,
      then the safe title, then `.md`. */
  function FileName(conv: Conversation, clock: LocalClock): string {
    var safe := Sanitize(TitleOf(conv));
    if Truthy(conv.createTime) then clock.date(conv.createTime.value) + "_" + safe + ".md"
    else safe + ".md"
  }

  /** The file name ends in `.md`, right after the sanitised title, and before
      the title it has the local date and `_` exactly when `create_time` is
      truthy (a `create_time` of 0 counts as missing). */
  lemma FileNameLayout(conv: Conversation, clock: LocalClock)
    ensures var name, title := FileName(conv, clock), TitleOf(conv);
      && |name| >= |title| + 3
      && name[|name| - 3..] == ".md"
      && name[|name| - 3 - |title|..|name| - 3] == Sanitize(title)
      && (Truthy(conv.createTime) ==>
            var prefix := clock.date(conv.createTime.value) + "_";
            |name| == |prefix| + |title| + 3 && name[..|prefix|] == prefix)
      && (!Truthy(conv.createTime) ==> |name| == |title| + 3)
  {
    var name, title := FileName(conv, clock), TitleOf(conv);
    var safe := Sanitize(title);
    if Truthy(conv.createTime) {
      var prefix := clock.date(conv.createTime.value) + "_";
      assert name == prefix + safe + ".md";
    } else {
      assert name == safe + ".md";
    }
  }

  /** When the local date holds none of the forbidden characters (it never
      does: it is digits and `-`), neither does the file name, so it names a
      file directly inside the output directory. */
  lemma FileNameIsSafe(conv: Conversation, clock: LocalClock)
    requires Truthy(conv.createTime) ==> forall i :: 0 <= i < |clock.date(conv.createTime.value)| ==> !IsForbidden(clock.date(conv.createTime.value)[i])
    ensures forall i :: 0 <= i < |FileName(conv, clock)| ==> !IsForbidden(FileName(conv, clock)[i])
  {
    var name := FileName(conv, clock);
    var safe := Sanitize(TitleOf(conv));
    var prefix := if Truthy(conv.createTime) then clock.date(conv.createTime.value) + "_" else "";
    assert name == prefix + safe + ".md";
    forall i | 0 <= i < |name| ensures !IsForbidden(name[i]) {
      if i < |prefix| {
        assert name[i] == prefix[i];
      } else if i < |prefix| + |safe| {
        assert name[i] == safe[i - |prefix|];
      } else {
        assert name[i] == ".md"[i - |prefix| - |safe|];
      }
    }
  }

  /** The text of a content object: `''.join(parts)`, where a missing `parts`
      defaults to `['']` and an empty list gives `''`. */
  function PartsText(c: Content): string {
    match c.parts
    case None => Concat([""])
    case Some(ps) => if ps == [] then "" else Concat(ps)
  }

  /** The content text is blank exactly when no part has a non-whitespace
      character; a missing or empty `parts` gives blank text. */
  lemma PartsBlank(c: Content)
    ensures AllSpace(PartsText(c)) <==>
      !(c.parts.Some? && exists k :: 0 <= k < |c.parts.value| && !AllSpace(c.parts.value[k]))
  {
    match c.parts
    case None =>
      assert Concat([""]) == "";
    case Some(ps) =>
      ConcatBlank(ps);
  }

  /** When a mapping value contributes a message: the value and its message are
      truthy, the message has truthy `content` and `author`, and some part of
      the content holds a non-whitespace character. */
  predicate Included(v: Option<Node>) {
    && v.Some?
    && v.value.message.Some?
    && v.value.message.value.content.Some?
    && v.value.message.value.author.Some?
    && v.value.message.value.content.value.parts.Some?
    && var ps := v.value.message.value.content.value.parts.value;
       exists k :: 0 <= k < |ps| && !AllSpace(ps[k])
  }

  /** The body of the extraction loop for one mapping value: the message it
      contributes, if any. */
  function KeepNode(v: Option<Node>): Option<Msg> {
    match v
    case Some(Node(Some(m))) =>
      if m.content.Some? && m.author.Some? then
        var text := PartsText(m.content.value);
        if Strip(text) != "" then Some(Msg(TimeKey(m.createTime), m.author.value.role, Strip(text)))
        else None
      else None
    case _ => None
  }

  /** A mapping value produces a message exactly when it is included; the
      message carries the author's role, the sort key and the stripped text,
      which is non-empty and neither starts nor ends with whitespace. */
  lemma KeepNodeIncluded(v: Option<Node>)
    ensures KeepNode(v).Some? <==> Included(v)
    ensures KeepNode(v).Some? ==>
      var m, r := v.value.message.value, KeepNode(v).value;
      && r.role == m.author.value.role
      && r.timestamp == TimeKey(m.createTime)
      && r.text == Strip(PartsText(m.content.value))
      && r.text != []
      && !IsSpace(r.text[0]) && !IsSpace(r.text[|r.text| - 1])
  {
    if v.Some? && v.value.message.Some? && v.value.message.value.content.Some? {
      PartsBlank(v.value.message.value.content.value);
    }
  }

  /** The message one `(key, value)` pair of the mapping contributes. */
  function KeepEntry(e: Entry): Option<Msg> {
    KeepNode(e.node)
  }

  /** The kept messages of a mapping, in mapping order. */
  function Kept(mapping: seq<Entry>): seq<Msg> {
    FilterMap(KeepEntry, mapping)
  }

  /** The extraction loop over `conversation.get('mapping', {}).items()`. */
  method ExtractMessages(mapping: seq<Entry>) returns (messages: seq<Msg>)
    ensures messages == Kept(mapping)
  {
    messages := [];
    for i := 0 to |mapping|
      invariant messages == Kept(mapping[..i])
    {
      assert mapping[..i + 1][..i] == mapping[..i];
      var value := mapping[i].node;
      if value.Some? && value.value.message.Some? {
        var msg := value.value.message.value;
        if msg.content.Some? && msg.author.Some? {
          var content := PartsText(msg.content.value);
          if Strip(content) != "" {
            messages := messages + [Msg(TimeKey(msg.createTime), msg.author.value.role, Strip(content))];
          }
        }
      }
    }
    assert mapping[..|mapping|] == mapping;
  }

  /** The messages of a conversation in the order they are rendered. */
  function Rendered(conv: Conversation): seq<Msg> {
    StableSort(Kept(conv.mapping))
  }

  /** The rendered messages are the kept ones, nothing dropped or duplicated,
      in non-decreasing timestamp order, with equal timestamps left in mapping
      order; a message is rendered exactly when some mapping value produces it. */
  lemma RenderedMessages(conv: Conversation)
    ensures Sorted(Rendered(conv))
    ensures SameTies(Rendered(conv), Kept(conv.mapping))
    ensures multiset(Rendered(conv)) == multiset(Kept(conv.mapping))
    ensures |Rendered(conv)| == |Kept(conv.mapping)|
    ensures forall m :: m in Rendered(conv) <==>
      exists i :: 0 <= i < |conv.mapping| && KeepEntry(conv.mapping[i]) == Some(m)
  {
    var r, k := Rendered(conv), Kept(conv.mapping);
    SameTiesPermutation(r, k);
    assert |multiset(r)| == |multiset(k)|;
    forall m ensures m in r <==> exists i :: 0 <= i < |conv.mapping| && KeepEntry(conv.mapping[i]) == Some(m) {
      assert m in r <==> m in multiset(r);
      assert m in k <==> m in multiset(k);
      FilterMapMembers(KeepEntry, conv.mapping, m);
    }
  }

  /** The heading shown for a role: a fixed table for the four known roles,
      any other role shown as it is. */
  function DisplayName(role: string): (name: string)
    ensures role == "user" ==> name == "我"
    ensures role == "assistant" ==> name == "ChatGPT"
    ensures role == "system" ==> name == "系统"
    ensures role == "tool" ==> name == "工具"
    ensures role !in {"user", "assistant", "system", "tool"} ==> name == role
  {
    var table := map["user" := "我", "assistant" := "ChatGPT", "system" := "系统", "tool" := "工具"];
    if role in table then table[role] else role
  }

  /** The four lines of one message. */
  function Section(m: Msg): seq<string> {
    ["## " + DisplayName(m.role), "", m.text, ""]
  }

  function Sections(ms: seq<Msg>): seq<string> {
    if ms == [] then [] else Sections(ms[..|ms| - 1]) + Section(ms[|ms| - 1])
  }

  /** Each message takes exactly four lines, in message order: its heading, a
      blank line, its text and a blank line. */
  lemma {:induction false} SectionsLayout(ms: seq<Msg>)
    ensures |Sections(ms)| == 4 * |ms|
    ensures forall i :: 0 <= i < |ms| ==>
      && Sections(ms)[4 * i] == "## " + DisplayName(ms[i].role)
      && Sections(ms)[4 * i + 1] == ""
      && Sections(ms)[4 * i + 2] == ms[i].text
      && Sections(ms)[4 * i + 3] == ""
  {
    if ms != [] {
      var init := ms[..|ms| - 1];
      SectionsLayout(init);
      forall i | 0 <= i < |init| ensures ms[i] == init[i] { }
    }
  }

  /** The front matter and the title heading. */
  function HeaderLines(conv: Conversation, clock: LocalClock): seq<string> {
    var title := TitleOf(conv);
    ["---", "title: " + title]
    + (if Truthy(conv.createTime) then ["date: " + clock.dateTime(conv.createTime.value)] else [])
    + ["source: ChatGPT Export", "---\n", "# " + title + "\n"]
  }

  function DocumentLines(conv: Conversation, clock: LocalClock): seq<string> {
    HeaderLines(conv, clock) + Sections(Rendered(conv))
  }

  /** The document text: the lines joined with newlines. */
  function Document(conv: Conversation, clock: LocalClock): string {
    JoinLines(DocumentLines(conv, clock))
  }

  /** How many mapping values are included. */
  function IncludedCount(mapping: seq<Entry>): nat {
    if mapping == [] then 0
    else IncludedCount(mapping[..|mapping| - 1]) + (if Included(mapping[|mapping| - 1].node) then 1 else 0)
  }

  /** Every included value contributes exactly one message, and no other value
      contributes any. */
  lemma {:induction false} KeptCount(mapping: seq<Entry>)
    ensures |Kept(mapping)| == IncludedCount(mapping)
  {
    if mapping != [] {
      var n := |mapping| - 1;
      KeptCount(mapping[..n]);
      KeepNodeIncluded(mapping[n].node);
    }
  }

  /** The document lines: the header (six lines with a date, five without),
      then four lines per rendered message, one message after the other, in
      the rendered order. */
  lemma DocumentLayout(conv: Conversation, clock: LocalClock)
    ensures var lines, h, r := DocumentLines(conv, clock), HeaderLines(conv, clock), Rendered(conv);
      && |h| == (if Truthy(conv.createTime) then 6 else 5)
      && |r| == IncludedCount(conv.mapping)
      && |lines| == |h| + 4 * |r|
      && lines[..|h|] == h
      && forall i :: 0 <= i < |r| ==>
           && lines[|h| + 4 * i] == "## " + DisplayName(r[i].role)
           && lines[|h| + 4 * i + 1] == ""
           && lines[|h| + 4 * i + 2] == r[i].text
           && lines[|h| + 4 * i + 3] == ""
  {
    var h, r := HeaderLines(conv, clock), Rendered(conv);
    RenderedMessages(conv);
    KeptCount(conv.mapping);
    SectionsAfter(h, r);
  }

  /** Message lines placed after any header keep their layout. */
  lemma SectionsAfter(h: seq<string>, r: seq<Msg>)
    ensures var lines := h + Sections(r);
      && |lines| == |h| + 4 * |r|
      && lines[..|h|] == h
      && forall i :: 0 <= i < |r| ==>
           && lines[|h| + 4 * i] == "## " + DisplayName(r[i].role)
           && lines[|h| + 4 * i + 1] == ""
           && lines[|h| + 4 * i + 2] == r[i].text
           && lines[|h| + 4 * i + 3] == ""
  {
    SectionsLayout(r);
    var lines := h + Sections(r);
    forall i | 0 <= i < |r|
      ensures && lines[|h| + 4 * i] == "## " + DisplayName(r[i].role)
              && lines[|h| + 4 * i + 1] == ""
              && lines[|h| + 4 * i + 2] == r[i].text
              && lines[|h| + 4 * i + 3] == ""
    {
      assert lines[|h| + 4 * i] == Sections(r)[4 * i];
      assert lines[|h| + 4 * i + 1] == Sections(r)[4 * i + 1];
      assert lines[|h| + 4 * i + 2] == Sections(r)[4 * i + 2];
      assert lines[|h| + 4 * i + 3] == Sections(r)[4 * i + 3];
    }
  }

  /** A header line announcing the creation date. */
  predicate IsDateLine(line: string) {
    |line| >= 6 && line[..6] == "date: "
  }

  /** The header: the front matter shows the raw, unsanitised title and has a
      date line exactly when `create_time` is truthy; the heading repeats the
      raw title. The placeholder title is used only when `title` is missing. */
  lemma HeaderLayout(conv: Conversation, clock: LocalClock)
    ensures var h := HeaderLines(conv, clock);
      && h[0] == "---"
      && h[1] == "title: " + TitleOf(conv)
      && h[|h| - 3] == "source: ChatGPT Export"
      && h[|h| - 2] == "---\n"
      && h[|h| - 1] == "# " + TitleOf(conv) + "\n"
      && ((exists i :: 0 <= i < |h| && IsDateLine(h[i])) <==> Truthy(conv.createTime))
      && (Truthy(conv.createTime) ==> h[2] == "date: " + clock.dateTime(conv.createTime.value))
    ensures conv.title.None? ==> TitleOf(conv) == Untitled
    ensures conv.title.Some? ==> TitleOf(conv) == conv.title.value
  {
    var h := HeaderLines(conv, clock);
    forall i | 0 <= i < |h| && IsDateLine(h[i]) ensures Truthy(conv.createTime) && i == 2 {
      assert h[i][0] == 'd';
      assert h[0][0] == '-' && h[1][0] == 't' && h[|h| - 3][0] == 's' && h[|h| - 2][0] == '-' && h[|h| - 1][0] == '#';
    }
    if Truthy(conv.createTime) {
      assert IsDateLine(h[2]);
    }
  }

  /** The document text is the joined header, followed, when any message is
      rendered, by a newline and the joined message lines; with no message it
      is the header alone. */
  lemma DocumentText(conv: Conversation, clock: LocalClock)
    ensures Document(conv, clock) ==
      JoinLines(HeaderLines(conv, clock))
      + (if Rendered(conv) == [] then "" else "\n" + JoinLines(Sections(Rendered(conv))))
  {
    var h, r := HeaderLines(conv, clock), Rendered(conv);
    if r == [] {
      assert Sections(r) == [];
      assert DocumentLines(conv, clock) == h;
    } else {
      SectionsLayout(r);
      JoinLinesAppend(h, Sections(r));
    }
  }

  /** A conversation none of whose mapping values is included (an empty or
      missing mapping among them) renders as the header alone. */
  lemma NothingIncludedOnlyHeader(conv: Conversation, clock: LocalClock)
    requires forall i :: 0 <= i < |conv.mapping| ==> !Included(conv.mapping[i].node)
    ensures Document(conv, clock) == JoinLines(HeaderLines(conv, clock))
  {
    var k := Kept(conv.mapping);
    if k != [] {
      FilterMapMembers(KeepEntry, conv.mapping, k[0]);
      var i :| 0 <= i < |conv.mapping| && KeepEntry(conv.mapping[i]) == Some(k[0]);
      KeepNodeIncluded(conv.mapping[i].node);
    }
    assert Rendered(conv) == [];
    DocumentText(conv, clock);
  }

  /** A worked file name: the `/` of the title `Test/Chat` becomes `_`, after
      the local date of the conversation's creation. */
  lemma WorkedFileName(clock: LocalClock, title: string)
    requires title == "Test/Chat"
    ensures FileName(Conversation(Some(title), Some(1700000000.0), []), clock)
      == clock.date(1700000000.0) + "_Test_Chat.md"
  {
    var safe := Sanitize(title);
    assert IsForbidden(title[4]);
    forall i | 0 <= i < |title| && i != 4 ensures safe[i] == title[i] {
      assert title[i] in "TestChat";
    }
    assert safe == "Test_Chat";
  }

  /** A worked mapping value: the message ` Hello\n` of the user is kept with
      its text stripped and its own creation time as sort key. */
  lemma WorkedMessage(text: string, e: Entry)
    requires text == " Hello\n"
    requires e == Entry("n1", Some(Node(Some(Message(Some(Author("user")), Some(Content(Some([text]))), Some(1700000001.0))))))
    ensures KeepEntry(e) == Some(Msg(1700000001.0, "user", "Hello"))
  {
    assert IsSpace(text[0]) && !IsSpace(text[1]);
    assert IsSpace(text[6]) && !IsSpace(text[5]);
    assert SkipSpace(text, 0) == 1;
    assert SkipSpaceBack(text, 1, 7) == 6;
    assert Strip(text) == text[1..6] == "Hello";
    assert Concat([text]) == text;
  }

  /** A worked document: a conversation whose mapping holds the one value above
      renders as its header, then the message under the heading `我`. */
  lemma WorkedDocument(clock: LocalClock, text: string, conv: Conversation)
    requires text == " Hello\n"
    requires conv == Conversation(Some("Test/Chat"), Some(1700000000.0),
      [Entry("n1", Some(Node(Some(Message(Some(Author("user")), Some(Content(Some([text]))), Some(1700000001.0))))))])
    ensures Rendered(conv) == [Msg(1700000001.0, "user", "Hello")]
    ensures DocumentLines(conv, clock) == HeaderLines(conv, clock) + ["## 我", "", "Hello", ""]
  {
    var m := Msg(1700000001.0, "user", "Hello");
    WorkedMessage(text, conv.mapping[0]);
    assert conv.mapping == [] + [conv.mapping[0]];
    FilterMapAppend(KeepEntry, [], [conv.mapping[0]]);
    assert Kept(conv.mapping) == [m];
    assert [m][1..] == [];
    assert StableSort([m]) == Insert(m, []) == [m];
    assert Rendered(conv) == [m];
    SectionsLayout(Rendered(conv));
    assert "## " + DisplayName(m.role) == "## 我";
    assert Sections(Rendered(conv)) == ["## 我", "", "Hello", ""];
  }

  /** The loop over the sorted messages: four lines for each, appended to `lines`. */
  method AppendMessages(lines: seq<string>, sorted: array<Msg>) returns (out: seq<string>)
    ensures out == lines + Sections(sorted[..])
  {
    out := lines;
    assert sorted[..0] == [];
    for i := 0 to sorted.Length
      invariant out == lines + Sections(sorted[..i])
    {
      var msg := sorted[i];
      var roleDisplay := DisplayName(msg.role);
      assert sorted[..i + 1][..i] == sorted[..i];
      assert Sections(sorted[..i + 1]) == Sections(sorted[..i]) + Section(msg);
      out := out + ["## " + roleDisplay];
      out := out + [""];
      out := out + [msg.text];
      out := out + [""];
      assert out == lines + Sections(sorted[..i]) + Section(msg);
    }
    assert sorted[..sorted.Length] == sorted[..];
  }

  /** `_convert_single` without its file write: the file name and the text
      it would write. */
  method ConvertSingle(conv: Conversation, clock: LocalClock) returns (filename: string, content: string)
    ensures filename == FileName(conv, clock)
    ensures content == Document(conv, clock)
  {
    var title := conv.title.GetOr(Untitled);
    var createTime := conv.createTime;

    var safeTitle := Sanitize(title);
    if Truthy(createTime) {
      filename := clock.date(createTime.value) + "_" + safeTitle + ".md";
    } else {
      filename := safeTitle + ".md";
    }

    var lines: seq<string> := [];
    lines := lines + ["---"];
    lines := lines + ["title: " + title];
    if Truthy(createTime) {
      lines := lines + ["date: " + clock.dateTime(createTime.value)];
    }
    lines := lines + ["source: ChatGPT Export"];
    lines := lines + ["---\n"];
    lines := lines + ["# " + title + "\n"];
    assert lines == HeaderLines(conv, clock);

    var messages := ExtractMessages(conv.mapping);
    var sorted := new Msg[|messages|](i requires 0 <= i < |messages| => messages[i]);
    assert sorted[..] == messages;
    SortByTimestamp(sorted);
    lines := AppendMessages(lines, sorted);
    content := JoinLines(lines);
  }
}
