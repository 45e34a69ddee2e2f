/** The metrics printer (internal/metrics/metrics.go) and the command line's parser of its lines
    (internal/cli/status.go), which undoes it. */
module Metrics {
  import opened Common
  import opened Strings

  // ----- The printer -----

  function ReplaceAll(s: string, c: char, image: string): string {
    if s == "" then "" else (if s[0] == c then image else [s[0]]) + ReplaceAll(s[1..], c, image)
  }

  // Backslashes first, then newlines, then quotes.
  function EscapeLabelValue(v: string): string {
    ReplaceAll(ReplaceAll(ReplaceAll(v, '\\', "\\\\"), '\n', "\\n"), '"', "\\\"")
  }

  function EscapedChar(c: char): string {
    if c == '\\' then "\\\\" else if c == '\n' then "\\n" else if c == '"' then "\\\"" else [c]
  }

  // Character by character in a single pass.
  function Escaped(v: string): string {
    if v == "" then "" else EscapedChar(v[0]) + Escaped(v[1..])
  }

  lemma {:induction false} ReplaceAllConcat(a: string, b: string, c: char, image: string)
    ensures ReplaceAll(a + b, c, image) == ReplaceAll(a, c, image) + ReplaceAll(b, c, image)
  {
    if a == "" {
      assert a + b == b;
    } else {
      assert (a + b)[1..] == a[1..] + b;
      ReplaceAllConcat(a[1..], b, c, image);
    }
  }

  /** The three successive replacements amount to one pass that escapes each character by itself: no
      replacement touches what an earlier one produced. */
  lemma {:induction false} EscapeIsOnePass(v: string)
    ensures EscapeLabelValue(v) == Escaped(v)
  {
    if v != "" {
      EscapeIsOnePass(v[1..]);
      var one := ReplaceAll([v[0]], '\\', "\\\\");
      var two := ReplaceAll(one, '\n', "\\n");
      assert v == [v[0]] + v[1..];
      ReplaceAllConcat([v[0]], v[1..], '\\', "\\\\");
      ReplaceAllConcat(one, ReplaceAll(v[1..], '\\', "\\\\"), '\n', "\\n");
      ReplaceAllConcat(two, ReplaceAll(ReplaceAll(v[1..], '\\', "\\\\"), '\n', "\\n"), '"', "\\\"");
      EscapeOneChar(v[0]);
    }
  }

  lemma EscapeOneChar(c: char)
    ensures ReplaceAll(ReplaceAll(ReplaceAll([c], '\\', "\\\\"), '\n', "\\n"), '"', "\\\"") == EscapedChar(c)
  {
    var one := ReplaceAll([c], '\\', "\\\\");
    assert [c][1..] == "";
    if c == '\\' {
      assert one == "\\\\";
      assert "\\\\"[1..] == "\\" && "\\"[1..] == "";
      assert ReplaceAll("\\", '\n', "\\n") == "\\" && ReplaceAll("\\", '"', "\\\"") == "\\";
    } else if c == '\n' {
      assert one == [c] && ReplaceAll(one, '\n', "\\n") == "\\n";
      assert "\\n"[1..] == "n" && "n"[1..] == "";
      assert ReplaceAll("n", '"', "\\\"") == "n";
    }
  }

  function LabelPart(key: string, value: string): string {
    key + "=\"" + EscapeLabelValue(value) + "\""
  }

  function LabelPartsOf(order: seq<string>, labels: map<string, string>): seq<string>
    requires forall k :: k in order ==> k in labels
  {
    if order == [] then []
    else
      var last := order[|order| - 1];
      LabelPartsOf(order[..|order| - 1], labels) + [LabelPart(last, labels[last])]
  }

  function Join(parts: seq<string>, separator: string): string {
    if parts == [] then ""
    else if |parts| == 1 then parts[0]
    else parts[0] + separator + Join(parts[1..], separator)
  }

  // The keys, each once, in order.
  ghost predicate KeysInOrder(order: seq<string>, labels: map<string, string>) {
    InOrder(order) && |order| == |labels.Keys| && forall k :: k in order <==> k in labels
  }

  // The keys of the labels come in any order, and are sorted.
  method SortedKeys(labels: map<string, string>) returns (order: seq<string>)
    ensures KeysInOrder(order, labels)
  {
    var keys, rest := [], labels.Keys;
    while rest != {}
      invariant rest <= labels.Keys && |keys| + |rest| == |labels.Keys|
      invariant forall k :: k in keys <==> k in labels.Keys - rest
    {
      var k :| k in rest;
      keys, rest := keys + [k], rest - {k};
    }
    SortedInOrder(keys);
    SortedHasTheSame(keys);
    order := Sorted(keys);
  }

  /** The labels, sorted by their keys, joined by commas. */
  method FormatLabels(labels: map<string, string>) returns (r: string)
    ensures exists order ::
              && InOrder(order) && |order| == |labels.Keys| && (forall k :: k in order <==> k in labels)
              && r == Join(LabelPartsOf(order, labels), ",")
  {
    var keys := SortedKeys(labels);
    var parts := [];
    for i := 0 to |keys|
      invariant parts == LabelPartsOf(keys[..i], labels)
    {
      assert keys[..i + 1][..i] == keys[..i];
      parts := parts + [LabelPart(keys[i], labels[keys[i]])];
    }
    assert keys[..|keys|] == keys;
    r := Join(parts, ",");
  }

  // One line of output, without its newline.
  function MetricLine(name: string, order: seq<string>, labels: map<string, string>, value: string): string
    requires forall k :: k in order ==> k in labels
  {
    name + "{" + Join(LabelPartsOf(order, labels), ",") + "} " + value
  }

  // ----- The parser -----

  // Unicode white space, as Go's unicode.IsSpace has it.
  predicate IsSpace(c: char) {
    || c in {'\t', '\n', '\U{b}', '\U{c}', '\r', ' ', '\U{85}', '\U{a0}', '\U{1680}'}
    || '\U{2000}' <= c <= '\U{200a}'
    || c in {'\U{2028}', '\U{2029}', '\U{202f}', '\U{205f}', '\U{3000}'}
  }

  predicate NoSpace(s: string) {
    forall c :: c in s ==> !IsSpace(c)
  }

  // The length of the leading run of characters that are not white space.
  function WordLength(s: string): (n: nat)
    ensures n <= |s| && NoSpace(s[..n])
    ensures (forall i :: 0 <= i < n ==> !IsSpace(s[i])) && (n < |s| ==> IsSpace(s[n]))
  {
    if s == "" || IsSpace(s[0]) then 0
    else
      var n := WordLength(s[1..]);
      assert s[..n + 1] == [s[0]] + s[1..][..n];
      n + 1
  }

  // The words between runs of white space.
  function Fields(s: string): (words: seq<string>)
    ensures forall w :: w in words ==> w != "" && NoSpace(w)
    decreases |s|
  {
    if s == "" then []
    else if IsSpace(s[0]) then Fields(s[1..])
    else
      var n := WordLength(s);
      [s[..n]] + Fields(s[n..])
  }

  // Splits at commas outside quotes; acc is the part read so far.
  function LabelParts(s: string, acc: string, inQuotes: bool, escaped: bool): seq<string> {
    if s == "" then [acc]
    else if escaped then LabelParts(s[1..], acc + [s[0]], inQuotes, false)
    else if s[0] == '\\' then LabelParts(s[1..], acc + [s[0]], inQuotes, true)
    else if s[0] == '"' then LabelParts(s[1..], acc + [s[0]], !inQuotes, false)
    else if s[0] == ',' && !inQuotes then [acc] + LabelParts(s[1..], "", inQuotes, false)
    else LabelParts(s[1..], acc + [s[0]], inQuotes, false)
  }

  method SplitLabelParts(s: string) returns (parts: seq<string>)
    ensures parts == LabelParts(s, "", false, false)
  {
    parts := [];
    var start, inQuotes, escaped := 0, false, false;
    for i := 0 to |s|
      invariant 0 <= start <= i
      invariant LabelParts(s, "", false, false) == parts + LabelParts(s[i..], s[start..i], inQuotes, escaped)
    {
      var r := s[i];
      assert s[i..][1..] == s[i + 1..] && s[start..i + 1] == s[start..i] + [r];
      if escaped {
        escaped := false;
      } else if r == '\\' {
        escaped := true;
      } else if r == '"' {
        inQuotes := !inQuotes;
      } else if r == ',' && !inQuotes {
        parts := parts + [s[start..i]];
        start := i + 1;
        assert s[start..i + 1] == "";
      }
    }
    assert s[|s|..] == "" && s[start..|s|] == s[start..];
    parts := parts + [s[start..]];
  }

  function IndexOf(s: string, c: char): Option<nat> {
    if s == "" then None
    else if s[0] == c then Some(0)
    else
      var rest := IndexOf(s[1..], c);
      if rest.Some? then Some(rest.value + 1) else None
  }

  function LastIndexOf(s: string, c: char): (r: Option<nat>)
    ensures r.Some? ==> r.value < |s| && s[r.value] == c
  {
    if s == "" then None
    else if s[|s| - 1] == c then Some(|s| - 1)
    else LastIndexOf(s[..|s| - 1], c)
  }

  // What an escape sequence stands for; hexadecimal, octal and Unicode escapes are not modelled.
  function Unescaped(c: char): Option<char> {
    match c
    case 'a' => Some('\U{7}')
    case 'b' => Some('\U{8}')
    case 'f' => Some('\U{c}')
    case 'n' => Some('\n')
    case 'r' => Some('\r')
    case 't' => Some('\t')
    case 'v' => Some('\U{b}')
    case '\\' => Some('\\')
    case '"' => Some('"')
    case _ => None
  }

  // The inside of a quoted string.
  function UnquoteBody(s: string): Option<string> {
    if s == "" then Some("")
    else if s[0] == '"' || s[0] == '\n' then None
    else if s[0] == '\\' then
      if |s| == 1 then None
      else
        var c := Unescaped(s[1]);
        var rest := UnquoteBody(s[2..]);
        if c.Some? && rest.Some? then Some([c.value] + rest.value) else None
    else
      var rest := UnquoteBody(s[1..]);
      if rest.Some? then Some([s[0]] + rest.value) else None
  }

  function Unquote(s: string): Option<string> {
    if |s| < 2 || s[0] != '"' || s[|s| - 1] != '"' then None else UnquoteBody(s[1..|s| - 1])
  }

  function TrimQuotes(s: string): string
    decreases |s|
  {
    if s != "" && s[0] == '"' then TrimQuotes(s[1..])
    else if s != "" && s[|s| - 1] == '"' then TrimQuotes(s[..|s| - 1])
    else s
  }

  // The labels of the first n parts; parts without '=' are skipped and later keys win.
  function LabelsOf(parts: seq<string>, n: nat): map<string, string>
    requires n <= |parts|
  {
    if n == 0 then map[]
    else
      var part := parts[n - 1];
      var cut := IndexOf(part, '=');
      if cut.None? then LabelsOf(parts, n - 1)
      else LabelsOf(parts, n - 1)[Key(part) := Value(part)]
  }

  function Key(part: string): string {
    var cut := IndexOf(part, '=');
    if cut.Some? && cut.value <= |part| then part[..cut.value] else part
  }

  function Value(part: string): string {
    var cut := IndexOf(part, '=');
    if cut.Some? && cut.value + 1 <= |part| then
      var val := part[cut.value + 1..];
      var unquoted := Unquote(val);
      if unquoted.Some? then unquoted.value else TrimQuotes(val)
    else ""
  }

  // Name and labels of the first word of a line.
  function ParseHead(head: string): (string, map<string, string>) {
    var open := IndexOf(head, '{');
    var close := LastIndexOf(head, '}');
    if open.None? || open.value > |head| then (head, map[])
    else if close.None? || close.value <= open.value then (head[..open.value], map[])
    else
      var parts := LabelParts(head[open.value + 1..close.value], "", false, false);
      (head[..open.value], LabelsOf(parts, |parts|))
  }

  // Name, labels and value of a line.
  function ParseLine(line: string): (string, map<string, string>, string) {
    var fields := Fields(line);
    if |fields| < 2 then (line, map[], "")
    else (ParseHead(fields[0]).0, ParseHead(fields[0]).1, fields[1])
  }

  method SplitMetricLine(line: string) returns (name: string, labels: map<string, string>, value: string)
    ensures (name, labels, value) == ParseLine(line)
  {
    var fields := Fields(line);
    if |fields| < 2 {
      return line, map[], "";
    }
    var head := fields[0];
    value := fields[1];
    labels := map[];
    var open := IndexOf(head, '{');
    if open.None? || open.value > |head| {
      return head, labels, value;
    }
    name := head[..open.value];
    var close := LastIndexOf(head, '}');
    if close.None? || close.value <= open.value {
      return;
    }
    var parts := SplitLabelParts(head[open.value + 1..close.value]);
    for i := 0 to |parts|
      invariant labels == LabelsOf(parts, i)
    {
      if IndexOf(parts[i], '=').None? {
        continue;
      }
      labels := labels[Key(parts[i]) := Value(parts[i])];
    }
  }

  // ----- Reading back what was printed -----

  predicate Plain(key: string) {
    NoSpace(key) && forall c :: c in key ==> c !in {'=', ',', '"', '\\'}
  }

  // No white space but newlines.
  predicate Tidy(v: string) {
    forall c :: c in v && IsSpace(c) ==> c == '\n'
  }

  lemma {:induction false} IndexOfAfter(a: string, c: char, b: string)
    requires c !in a
    ensures IndexOf(a + [c] + b, c) == Some(|a|)
  {
    if a == "" {
      assert a + [c] + b == [c] + b;
    } else {
      assert (a + [c] + b)[1..] == a[1..] + [c] + b;
      IndexOfAfter(a[1..], c, b);
    }
  }

  lemma FieldsOfWord(word: string, rest: string)
    requires word != "" && NoSpace(word) && (rest == "" || IsSpace(rest[0]))
    ensures Fields(word + rest) == [word] + Fields(rest)
  {
    var s := word + rest;
    var n := WordLength(s);
    assert !IsSpace(s[0]);
    assert |word| <= n;
    assert rest != "" ==> s[|word|] == rest[0];
    assert s[..n] == word && s[n..] == rest;
  }

  lemma {:induction false} EscapedIsReadBack(v: string)
    ensures UnquoteBody(Escaped(v)) == Some(v)
  {
    if v != "" {
      var image, rest := EscapedChar(v[0]), Escaped(v[1..]);
      EscapedIsReadBack(v[1..]);
      assert v == [v[0]] + v[1..];
      if |image| == 1 {
        assert (image + rest)[1..] == rest;
      } else {
        assert (image + rest)[2..] == rest && Unescaped((image + rest)[1]) == Some(v[0]);
      }
    }
  }

  lemma {:induction false} EscapedHasNoSpace(v: string)
    requires Tidy(v)
    ensures NoSpace(Escaped(v))
  {
    if v != "" {
      EscapedHasNoSpace(v[1..]);
      assert v[0] in v;
    }
  }

  lemma PartIsReadBack(key: string, v: string)
    requires Plain(key)
    ensures IndexOf(LabelPart(key, v), '=').Some?
    ensures Key(LabelPart(key, v)) == key && Value(LabelPart(key, v)) == v
  {
    var quoted := "\"" + EscapeLabelValue(v) + "\"";
    assert LabelPart(key, v) == key + ['='] + quoted;
    IndexOfAfter(key, '=', quoted);
    assert LabelPart(key, v)[|key| + 1..] == quoted;
    assert quoted[1..|quoted| - 1] == EscapeLabelValue(v);
    EscapeIsOnePass(v);
    EscapedIsReadBack(v);
  }

  lemma {:induction false} KeyPasses(key: string, rest: string, acc: string)
    requires Plain(key)
    ensures LabelParts(key + rest, acc, false, false) == LabelParts(rest, acc + key, false, false)
  {
    if key == "" {
      assert key + rest == rest && acc + key == acc;
    } else {
      assert key[0] in key && forall c :: c in key[1..] ==> c in key;
      assert (key + rest)[1..] == key[1..] + rest;
      assert acc + [key[0]] + key[1..] == acc + key;
      KeyPasses(key[1..], rest, acc + [key[0]]);
    }
  }

  lemma EscapedCharPasses(c: char, rest: string, acc: string)
    ensures LabelParts(EscapedChar(c) + rest, acc, true, false)
         == LabelParts(rest, acc + EscapedChar(c), true, false)
  {
    var image := EscapedChar(c);
    var s := image + rest;
    if |image| == 1 {
      assert s[1..] == rest;
    } else {
      assert s[1..][1..] == rest && acc + [image[0]] + [image[1]] == acc + image;
    }
  }

  lemma {:induction false} ValuePasses(v: string, rest: string, acc: string)
    ensures LabelParts(Escaped(v) + rest, acc, true, false) == LabelParts(rest, acc + Escaped(v), true, false)
  {
    if v == "" {
      assert Escaped(v) + rest == rest && acc + Escaped(v) == acc;
    } else {
      var image := EscapedChar(v[0]);
      assert Escaped(v) + rest == image + (Escaped(v[1..]) + rest);
      assert acc + image + Escaped(v[1..]) == acc + Escaped(v);
      EscapedCharPasses(v[0], Escaped(v[1..]) + rest, acc);
      ValuePasses(v[1..], rest, acc + image);
    }
  }

  lemma PartPasses(key: string, v: string, rest: string)
    requires Plain(key)
    ensures LabelParts(LabelPart(key, v) + rest, "", false, false) == LabelParts(rest, LabelPart(key, v), false, false)
  {
    EscapeIsOnePass(v);
    var body := Escaped(v);
    var tail := ['"'] + rest;
    assert LabelPart(key, v) + rest == key + (['=', '"'] + (body + tail));
    KeyPasses(key, ['=', '"'] + (body + tail), "");
    assert (['=', '"'] + (body + tail))[1..][1..] == body + tail;
    assert "" + key + ['='] + ['"'] == key + ['=', '"'];
    ValuePasses(v, tail, key + ['=', '"']);
    assert tail[1..] == rest;
    assert key + ['=', '"'] + body + ['"'] == LabelPart(key, v);
  }

  predicate PlainKeys(order: seq<string>, labels: map<string, string>) {
    forall k :: k in order ==> k in labels && Plain(k)
  }

  lemma {:induction false} LabelPartsOfAt(order: seq<string>, labels: map<string, string>, i: nat)
    requires PlainKeys(order, labels) && i < |order|
    ensures |LabelPartsOf(order, labels)| == |order|
    ensures LabelPartsOf(order, labels)[i] == LabelPart(order[i], labels[order[i]])
  {
    var front := order[..|order| - 1];
    if i < |front| {
      LabelPartsOfAt(front, labels, i);
    } else if front != [] {
      LabelPartsOfAt(front, labels, 0);
    }
  }

  // A part that the printer makes.
  ghost predicate Printed(part: string) {
    exists key, v :: Plain(key) && part == LabelPart(key, v)
  }

  lemma {:induction false} JoinIsSplitBack(parts: seq<string>)
    requires parts != [] && forall p :: p in parts ==> Printed(p)
    ensures LabelParts(Join(parts, ","), "", false, false) == parts
  {
    assert parts[0] in parts;
    var key, v :| Plain(key) && parts[0] == LabelPart(key, v);
    if |parts| == 1 {
      PartPasses(key, v, "");
      assert parts[0] + "" == parts[0];
    } else {
      var rest := Join(parts[1..], ",");
      JoinIsSplitBack(parts[1..]);
      PartPasses(key, v, "," + rest);
      assert Join(parts, ",") == parts[0] + ("," + rest);
      assert ("," + rest)[1..] == rest;
    }
  }

  lemma {:induction false} JoinHasNoSpace(parts: seq<string>)
    requires forall p :: p in parts ==> NoSpace(p)
    ensures NoSpace(Join(parts, ","))
  {
    if |parts| > 0 {
      assert parts[0] in parts;
      if |parts| > 1 {
        JoinHasNoSpace(parts[1..]);
      }
    }
  }

  lemma {:induction false} LabelsAreReadBack(order: seq<string>, labels: map<string, string>, parts: seq<string>,
                                             n: nat)
    requires PlainKeys(order, labels) && parts == LabelPartsOf(order, labels) && n <= |order| == |parts|
    ensures forall k :: k in LabelsOf(parts, n) <==> k in order[..n]
    ensures forall k :: k in LabelsOf(parts, n) ==> k in labels && LabelsOf(parts, n)[k] == labels[k]
  {
    if n > 0 {
      LabelsAreReadBack(order, labels, parts, n - 1);
      OneMoreIsReadBack(order, labels, parts, n - 1);
      assert order[..n] == order[..n - 1] + [order[n - 1]];
    }
  }

  lemma OneMoreIsReadBack(order: seq<string>, labels: map<string, string>, parts: seq<string>, n: nat)
    requires PlainKeys(order, labels) && parts == LabelPartsOf(order, labels) && n < |order| == |parts|
    ensures LabelsOf(parts, n + 1) == LabelsOf(parts, n)[order[n] := labels[order[n]]]
  {
    LabelPartsOfAt(order, labels, n);
    PartIsReadBack(order[n], labels[order[n]]);
  }

  predicate AllTidy(labels: map<string, string>) {
    forall k :: k in labels ==> Tidy(labels[k])
  }

  predicate Printable(name: string, order: seq<string>, labels: map<string, string>, value: string) {
    && NoSpace(name) && '{' !in name
    && PlainKeys(order, labels) && (forall k :: k in labels ==> k in order)
    && value != "" && NoSpace(value)
  }

  lemma PartsWellPrinted(order: seq<string>, labels: map<string, string>)
    requires PlainKeys(order, labels)
    ensures |LabelPartsOf(order, labels)| == |order|
    ensures forall p :: p in LabelPartsOf(order, labels) ==> Printed(p)
    ensures (forall k :: k in order ==> Tidy(labels[k])) ==> NoSpace(Join(LabelPartsOf(order, labels), ","))
  {
    var parts := LabelPartsOf(order, labels);
    if order != [] {
      LabelPartsOfAt(order, labels, 0);
    }
    forall p | p in parts
      ensures Printed(p)
    {
      var i :| 0 <= i < |parts| && p == parts[i];
      LabelPartsOfAt(order, labels, i);
    }
    if forall k :: k in order ==> Tidy(labels[k]) {
      forall p | p in parts
        ensures NoSpace(p)
      {
        var i :| 0 <= i < |parts| && p == parts[i];
        LabelPartsOfAt(order, labels, i);
        EscapeIsOnePass(labels[order[i]]);
        EscapedHasNoSpace(labels[order[i]]);
      }
      JoinHasNoSpace(parts);
    }
  }

  lemma InsideIsReadBack(order: seq<string>, labels: map<string, string>)
    requires PlainKeys(order, labels) && forall k :: k in labels ==> k in order
    ensures var parts := LabelParts(Join(LabelPartsOf(order, labels), ","), "", false, false);
      LabelsOf(parts, |parts|) == labels
  {
    var parts := LabelPartsOf(order, labels);
    PartsWellPrinted(order, labels);
    if order == [] {
      assert LabelParts("", "", false, false) == [""];
      assert LabelsOf([""], 1) == LabelsOf([""], 0);
    } else {
      JoinIsSplitBack(parts);
      LabelsAreReadBack(order, labels, parts, |parts|);
      assert order[..|parts|] == order;
    }
  }

  lemma TwoFields(head: string, value: string)
    requires head != "" && NoSpace(head) && value != "" && NoSpace(value)
    ensures Fields(head + (" " + value)) == [head, value]
  {
    FieldsOfWord(head, " " + value);
    assert (" " + value)[1..] == value;
    FieldsOfWord(value, "");
    assert value + "" == value;
  }

  lemma HeadIsReadBack(name: string, inside: string)
    requires '{' !in name
    ensures var parts := LabelParts(inside, "", false, false);
      ParseHead(name + ['{'] + (inside + "}")) == (name, LabelsOf(parts, |parts|))
  {
    var head := name + ['{'] + (inside + "}");
    IndexOfAfter(name, '{', inside + "}");
    HeadPieces(name, inside);
    assert LastIndexOf(head, '}') == Some(|head| - 1);
  }

  lemma HeadPieces(name: string, inside: string)
    ensures var head := name + ['{'] + (inside + "}");
      head[|head| - 1] == '}' && head[|name| + 1..|head| - 1] == inside && head[..|name|] == name
  {
  }

  lemma HeadHasNoSpace(name: string, inside: string)
    requires NoSpace(name) && NoSpace(inside)
    ensures NoSpace(name + ['{'] + (inside + "}"))
  {
  }

  lemma LineIsSplitBack(name: string, inside: string, value: string)
    requires NoSpace(name) && '{' !in name && NoSpace(inside) && value != "" && NoSpace(value)
    ensures var parts := LabelParts(inside, "", false, false);
      ParseLine(name + "{" + inside + "} " + value) == (name, LabelsOf(parts, |parts|), value)
  {
    var head := name + ['{'] + (inside + "}");
    HeadHasNoSpace(name, inside);
    TwoFields(head, value);
    HeadIsReadBack(name, inside);
    ParsedTwo(head + (" " + value), head, value);
    LineForm(name, inside, value);
  }

  lemma LineForm(name: string, inside: string, value: string)
    ensures name + "{" + inside + "} " + value == name + ['{'] + (inside + "}") + (" " + value)
  {
    assert inside + "} " == inside + "}" + " ";
  }

  lemma ParsedTwo(line: string, head: string, value: string)
    requires Fields(line) == [head, value]
    ensures ParseLine(line) == (ParseHead(head).0, ParseHead(head).1, value)
  {
  }

  /** Values with quotes, backslashes, commas, braces, '=' and newlines all come back. */
  lemma TidyLabelsComeBack(name: string, order: seq<string>, labels: map<string, string>, value: string)
    requires Printable(name, order, labels, value) && AllTidy(labels)
    ensures ParseLine(MetricLine(name, order, labels, value)) == (name, labels, value)
  {
    PartsWellPrinted(order, labels);
    InsideIsReadBack(order, labels);
    LineIsSplitBack(name, Join(LabelPartsOf(order, labels), ","), value);
  }

  // ----- Other white space is lost -----

  // Whether a backslash is open at the end of s, when one was or was not open at its start.
  function Open(s: string, open: bool): bool {
    if s == "" then open else Open(s[1..], !open && s[0] == '\\')
  }

  // Backslashes only ever escape what the printer escapes.
  predicate WellEscaped(s: string, open: bool) {
    s == "" || ((open ==> s[0] in {'\\', 'n', '"'}) && WellEscaped(s[1..], !open && s[0] == '\\'))
  }

  lemma {:induction false} WellEscapedConcat(a: string, b: string, open: bool)
    ensures WellEscaped(a + b, open) == (WellEscaped(a, open) && WellEscaped(b, Open(a, open)))
    ensures Open(a + b, open) == Open(b, Open(a, open))
  {
    if a == "" {
      assert a + b == b;
    } else {
      assert (a + b)[1..] == a[1..] + b;
      WellEscapedConcat(a[1..], b, !open && a[0] == '\\');
    }
  }

  lemma WellEscapedSnoc(a: string, c: char, open: bool)
    ensures WellEscaped(a + [c], open) == (WellEscaped(a, open) && (Open(a, open) ==> c in {'\\', 'n', '"'}))
    ensures Open(a + [c], open) == (!Open(a, open) && c == '\\')
  {
    WellEscapedConcat(a, [c], open);
    assert [c][1..] == "";
  }

  lemma {:induction false} EscapedIsWellEscaped(v: string)
    ensures WellEscaped(Escaped(v), false) && !Open(Escaped(v), false)
  {
    if v != "" {
      EscapedIsWellEscaped(v[1..]);
      var image := EscapedChar(v[0]);
      WellEscapedConcat(image, Escaped(v[1..]), false);
      assert image[1..] == "" || (|image| == 2 && image[1..][1..] == "");
    }
  }

  lemma {:induction false} KeyIsWellEscaped(key: string)
    requires Plain(key)
    ensures WellEscaped(key, false) && !Open(key, false)
  {
    if key != "" {
      assert key[0] in key && forall c :: c in key[1..] ==> c in key;
      KeyIsWellEscaped(key[1..]);
    }
  }

  lemma PartIsWellEscaped(part: string)
    requires Printed(part)
    ensures WellEscaped(part, false) && !Open(part, false)
  {
    var key, v :| Plain(key) && part == LabelPart(key, v);
    PartForm(key, v);
    KeyIsWellEscaped(key);
    EscapedIsWellEscaped(v);
    FrontIsWellEscaped(key);
    EnclosedIsWellEscaped(key + ['='] + ['"'], Escaped(v));
  }

  lemma PartForm(key: string, v: string)
    ensures LabelPart(key, v) == key + ['='] + ['"'] + Escaped(v) + ['"']
  {
    EscapeIsOnePass(v);
  }

  lemma EnclosedIsWellEscaped(front: string, body: string)
    requires WellEscaped(front, false) && !Open(front, false) && WellEscaped(body, false) && !Open(body, false)
    ensures WellEscaped(front + body + ['"'], false) && !Open(front + body + ['"'], false)
  {
    WellEscapedConcat(front, body, false);
    WellEscapedSnoc(front + body, '"', false);
  }

  lemma FrontIsWellEscaped(key: string)
    requires WellEscaped(key, false) && !Open(key, false)
    ensures WellEscaped(key + ['='] + ['"'], false) && !Open(key + ['='] + ['"'], false)
  {
    WellEscapedSnoc(key, '=', false);
    WellEscapedSnoc(key + ['='], '"', false);
  }

  lemma {:induction false} JoinIsWellEscaped(parts: seq<string>)
    requires forall p :: p in parts ==> Printed(p)
    ensures WellEscaped(Join(parts, ","), false)
  {
    if parts != [] {
      assert parts[0] in parts;
      PartIsWellEscaped(parts[0]);
      if |parts| > 1 {
        var rest := "," + Join(parts[1..], ",");
        JoinIsWellEscaped(parts[1..]);
        assert rest[1..] == Join(parts[1..], ",");
        WellEscapedConcat(parts[0], rest, false);
        assert Join(parts, ",") == parts[0] + rest;
      }
    }
  }

  predicate Clean(s: string) {
    NoSpace(s) && WellEscaped(s, false)
  }

  lemma {:induction false} PartsStayClean(s: string, acc: string, inQuotes: bool, escaped: bool)
    requires NoSpace(s) && WellEscaped(s, escaped) && Clean(acc) && Open(acc, false) == escaped
    ensures forall p :: p in LabelParts(s, acc, inQuotes, escaped) ==> Clean(p)
  {
    if s != "" {
      assert s[0] in s && forall c :: c in s[1..] ==> c in s;
      WellEscapedConcat(acc, [s[0]], false);
      assert [s[0]][1..] == "";
      if !escaped && s[0] == ',' && !inQuotes {
        PartsStayClean(s[1..], "", inQuotes, false);
      } else {
        PartsStayClean(s[1..], acc + [s[0]], if !escaped && s[0] == '"' then !inQuotes else inQuotes,
                       !escaped && s[0] == '\\');
      }
    }
  }

  lemma {:induction false} UnquoteTidy(s: string)
    requires Clean(s) && UnquoteBody(s).Some?
    ensures Tidy(UnquoteBody(s).value)
  {
    if s != "" {
      assert s[0] in s;
      if s[0] == '\\' {
        assert forall c :: c in s[2..] ==> c in s;
        assert WellEscaped(s[1..], true) && s[2..] == s[1..][1..];
        UnquoteTidy(s[2..]);
      } else {
        assert forall c :: c in s[1..] ==> c in s;
        UnquoteTidy(s[1..]);
      }
    }
  }

  lemma {:induction false} TrimTidy(s: string)
    requires NoSpace(s)
    ensures NoSpace(TrimQuotes(s))
    decreases |s|
  {
    if s != "" && s[0] == '"' {
      assert forall c :: c in s[1..] ==> c in s;
      TrimTidy(s[1..]);
    } else if s != "" && s[|s| - 1] == '"' {
      assert forall c :: c in s[..|s| - 1] ==> c in s;
      TrimTidy(s[..|s| - 1]);
    }
  }

  lemma {:induction false} IndexOfIsAt(s: string, c: char)
    ensures IndexOf(s, c).Some? ==> IndexOf(s, c).value < |s| && s[IndexOf(s, c).value] == c
  {
    if s != "" && s[0] != c {
      IndexOfIsAt(s[1..], c);
    }
  }

  lemma SubstringsHaveNoSpace(s: string, i: nat, j: nat)
    requires NoSpace(s) && i <= j <= |s|
    ensures NoSpace(s[i..j])
  {
    assert forall c :: c in s[i..j] ==> c in s;
  }

  lemma UnquotedTidy(val: string)
    requires Clean(val) && Unquote(val).Some?
    ensures Tidy(Unquote(val).value)
  {
    var body := val[1..|val| - 1];
    SubstringsHaveNoSpace(val, 1, |val| - 1);
    assert val[1..] == body + ['"'];
    WellEscapedSnoc(body, '"', false);
    UnquoteTidy(body);
  }

  lemma ValueTidy(part: string)
    requires Clean(part)
    ensures Tidy(Value(part))
  {
    IndexOfIsAt(part, '=');
    var cut := IndexOf(part, '=');
    if cut.Some? {
      var front, val := part[..cut.value], part[cut.value + 1..];
      SubstringsHaveNoSpace(part, cut.value + 1, |part|);
      assert part == front + ['='] + val;
      WellEscapedSnoc(front, '=', false);
      WellEscapedConcat(front + ['='], val, false);
      TrimTidy(val);
      if Unquote(val).Some? {
        UnquotedTidy(val);
      }
    }
  }

  lemma {:induction false} LabelsTidy(parts: seq<string>, n: nat)
    requires n <= |parts| && forall p :: p in parts ==> Clean(p)
    ensures AllTidy(LabelsOf(parts, n))
  {
    if n > 0 {
      LabelsTidy(parts, n - 1);
      assert parts[n - 1] in parts;
      ValueTidy(parts[n - 1]);
    }
  }

  lemma {:induction false} EscapedKeeps(v: string, c: char)
    requires c in v && IsSpace(c) && c != '\n'
    ensures c in Escaped(v)
  {
    if v[0] != c {
      EscapedKeeps(v[1..], c);
    }
  }

  lemma {:induction false} JoinKeeps(parts: seq<string>, i: nat, c: char)
    requires i < |parts| && c in parts[i]
    ensures c in Join(parts, ",")
  {
    if i > 0 {
      JoinKeeps(parts[1..], i - 1, c);
    }
  }

  lemma InsideHasSpace(order: seq<string>, labels: map<string, string>, key: string)
    requires PlainKeys(order, labels) && key in order && !Tidy(labels[key])
    ensures !NoSpace(Join(LabelPartsOf(order, labels), ","))
  {
    var c :| c in labels[key] && IsSpace(c) && c != '\n';
    var i :| 0 <= i < |order| && order[i] == key;
    LabelPartsOfAt(order, labels, i);
    EscapeIsOnePass(labels[key]);
    EscapedKeeps(labels[key], c);
    JoinKeeps(LabelPartsOf(order, labels), i, c);
  }

  // A line broken inside its labels: the head read is a proper prefix of the head printed.
  lemma HeadOfBrokenLine(name: string, inside: string, rest: string)
    requires NoSpace(name) && !NoSpace(inside)
    ensures var line := name + "{" + inside + rest;
      var n := WordLength(line);
      && |name| < n <= |name| + |inside|
      && line[..n] == name + ['{'] + inside[..n - |name| - 1]
      && Fields(line) != [] && Fields(line)[0] == line[..n]
  {
    var line := name + "{" + inside + rest;
    var n := WordLength(line);
    var c :| c in inside && IsSpace(c);
    var i :| 0 <= i < |inside| && inside[i] == c;
    assert line[|name| + 1 + i] == c;
    assert n <= |name| + 1 + i;
    if n <= |name| {
      assert false;
    }
    assert line[..n][0] in line[..n];
  }

  lemma BrokenLineTidy(name: string, inside: string, rest: string)
    requires NoSpace(name) && '{' !in name && !NoSpace(inside) && WellEscaped(inside, false)
    ensures AllTidy(ParseLine(name + "{" + inside + rest).1)
  {
    var line := name + "{" + inside + rest;
    HeadOfBrokenLine(name, inside, rest);
    var head := line[..WordLength(line)];
    var seen := inside[..|head| - |name| - 1];
    HeadTidy(name, inside, seen);
    ParsedHead(line);
  }

  // The labels of a line are those of its first word, if it has two.
  lemma ParsedHead(line: string)
    requires Fields(line) != []
    ensures ParseLine(line).1 == map[] || ParseLine(line).1 == ParseHead(Fields(line)[0]).1
  {
  }

  // A head cut off inside its labels.
  lemma HeadTidy(name: string, inside: string, seen: string)
    requires '{' !in name && NoSpace(name + ['{'] + seen) && seen <= inside && WellEscaped(inside, false)
    ensures AllTidy(ParseHead(name + ['{'] + seen).1)
  {
    var head := name + ['{'] + seen;
    IndexOfAfter(name, '{', seen);
    var close := LastIndexOf(head, '}');
    if close.Some? && close.value > |name| {
      var s := head[|name| + 1..close.value];
      SubstringsHaveNoSpace(head, |name| + 1, close.value);
      CutOffTidy(s, inside[|s|..], inside);
    }
  }

  lemma CutOffTidy(s: string, rest: string, inside: string)
    requires NoSpace(s) && inside == s + rest && WellEscaped(inside, false)
    ensures AllTidy(LabelsOf(LabelParts(s, "", false, false), |LabelParts(s, "", false, false)|))
  {
    WellEscapedConcat(s, rest, false);
    PartsStayClean(s, "", false, false);
    LabelsTidy(LabelParts(s, "", false, false), |LabelParts(s, "", false, false)|);
  }

  /** Whatever labels are printed, none that is read back holds other white space than newlines. */
  lemma ParsedLabelsTidy(name: string, order: seq<string>, labels: map<string, string>, value: string)
    requires Printable(name, order, labels, value)
    ensures AllTidy(ParseLine(MetricLine(name, order, labels, value)).1)
  {
    if AllTidy(labels) {
      TidyLabelsComeBack(name, order, labels, value);
    } else {
      var inside := Join(LabelPartsOf(order, labels), ",");
      PartsWellPrinted(order, labels);
      JoinIsWellEscaped(LabelPartsOf(order, labels));
      var key :| key in labels && !Tidy(labels[key]);
      InsideHasSpace(order, labels, key);
      BrokenLineTidy(name, inside, "} " + value);
      assert MetricLine(name, order, labels, value) == name + "{" + inside + ("} " + value);
    }
  }

  /** The parser undoes the printer exactly when no label value holds white space other than newlines. */
  lemma RoundTripIff(name: string, order: seq<string>, labels: map<string, string>, value: string)
    requires Printable(name, order, labels, value)
    ensures ParseLine(MetricLine(name, order, labels, value)) == (name, labels, value) <==> AllTidy(labels)
  {
    if AllTidy(labels) {
      TidyLabelsComeBack(name, order, labels, value);
    } else {
      ParsedLabelsTidy(name, order, labels, value);
    }
  }
}
