/** Event decoding, and the encoding of the Solidity Contract ABI Specification it inverts. */
module AbiEvents {
  import opened Basics
  import opened Decimal
  import opened PythonInt
  import opened AbiWords

  const MAX_EVENT_ARGUMENTS: nat := 64
  const MAX_DYNAMIC_EVENT_BYTES: nat := 4096

  /** A topic: hexadecimal bytes, or text that does not spell whole bytes. */
  datatype Topic = HexTopic(bytes: seq<nat>) | BadTopic(text: string)

  /** A decoded value. `HexValue` renders as 0x-text and `TextValue` as text decoded from UTF-8;
      either may carry the suffix "<truncated>". A marker stands for a value that is missing. */
  datatype Value =
    | BoolValue(flag: bool)
    | Number(n: int)
    | HexValue(bytes: seq<nat>, truncated: bool)
    | TextValue(bytes: seq<nat>, truncated: bool)
    | IndexedHash(topic: Topic)
    | Marker(text: string)

  /** An entry of an event's inputs; one that is not an object is skipped, but still numbered. */
  datatype Parameter = NotAnObject | Parameter(name: string, typeName: string, indexed: bool)

  predicate InTopics(p: Parameter) {
    p.Parameter? && p.indexed
  }

  predicate InData(p: Parameter) {
    p.Parameter? && !p.indexed
  }

  // ----- type names

  predicate StartsWith(s: string, prefix: string) {
    |prefix| <= |s| && s[..|prefix|] == prefix
  }

  predicate DynamicType(typeName: string) {
    typeName in {"string", "bytes"} || '[' in typeName || StartsWith(typeName, "(")
  }

  /** The length in `bytesN`, 32 when it is not a number. */
  function FixedLength(typeName: string): nat
    requires StartsWith(typeName, "bytes")
  {
    var suffix := typeName[5..];
    Min(WORD, if suffix != [] && AllDigits(suffix) then Read(suffix) else WORD)
  }

  // ----- decoding

  function DecodeWord(typeName: string, word: seq<nat>): Value
    requires |word| == WORD
  {
    if typeName == "address" then HexValue(word[WORD - 20..], false)
    else if typeName == "bool" then BoolValue(FromBig(word) != 0)
    else if StartsWith(typeName, "uint") then Number(FromBig(word))
    else if StartsWith(typeName, "int") then Number(FromBigSigned(word))
    else if StartsWith(typeName, "bytes") && typeName != "bytes" then HexValue(word[..FixedLength(typeName)], false)
    else HexValue(word, false)
  }

  function DecodeDynamic(typeName: string, raw: seq<nat>, headOffset: nat): Value {
    if headOffset + WORD > |raw| then Marker("<unavailable>")
    else
      var offset := FromBig(WordAt(raw, headOffset));
      if !Aligned(offset) || offset + WORD > |raw| then Marker("<invalid-offset>")
      else if typeName !in {"string", "bytes"} then Marker("<dynamic:" + typeName + ">")
      else
        var length := FromBig(WordAt(raw, offset));
        var start := offset + WORD;
        var selected := Min(Min(length, |raw| - start), MAX_DYNAMIC_EVENT_BYTES);
        var bytes := raw[start..start + selected];
        if typeName == "string" then TextValue(bytes, selected < length) else HexValue(bytes, selected < length)
  }

  function DecodeTopic(typeName: string, topics: seq<Topic>, topicIndex: nat): Value {
    if topicIndex >= |topics| then Marker("<missing-topic>")
    else if DynamicType(typeName) then IndexedHash(topics[topicIndex])
    else if topics[topicIndex].BadTopic? || |topics[topicIndex].bytes| != WORD then Marker("<invalid-topic>")
    else DecodeWord(typeName, topics[topicIndex].bytes)
  }

  function DecodeData(typeName: string, raw: seq<nat>, headOffset: nat): Value {
    if DynamicType(typeName) then DecodeDynamic(typeName, raw, headOffset)
    else if headOffset + WORD <= |raw| then DecodeWord(typeName, WordAt(raw, headOffset))
    else Marker("<missing-data>")
  }

  function NameOf(p: Parameter, index: nat): string
    requires p.Parameter?
  {
    if p.name != "" then p.name else "arg" + Show(index)
  }

  /** How many of the first n parameters are indexed, and how many are in the data. */
  function IndexedBefore(params: seq<Parameter>, n: nat): nat
    requires n <= |params|
  {
    if n == 0 then 0 else IndexedBefore(params, n - 1) + (if InTopics(params[n - 1]) then 1 else 0)
  }

  function DataBefore(params: seq<Parameter>, n: nat): nat
    requires n <= |params|
  {
    if n == 0 then 0 else DataBefore(params, n - 1) + (if InData(params[n - 1]) then 1 else 0)
  }

  /** The value of parameter i: its own topic, after the signature's, or its own head slot. */
  function DecodedAt(params: seq<Parameter>, topics: seq<Topic>, raw: seq<nat>, i: nat): Value
    requires i < |params| && params[i].Parameter?
  {
    if params[i].indexed then DecodeTopic(params[i].typeName, topics, 1 + IndexedBefore(params, i))
    else DecodeData(params[i].typeName, raw, WORD * DataBefore(params, i))
  }

  function Decoded(params: seq<Parameter>, topics: seq<Topic>, raw: seq<nat>, n: nat): map<string, Value>
    requires n <= |params|
  {
    if n == 0 then map[]
    else if params[n - 1].NotAnObject? then Decoded(params, topics, raw, n - 1)
    else Decoded(params, topics, raw, n - 1)[NameOf(params[n - 1], n - 1) := DecodedAt(params, topics, raw, n - 1)]
  }

  /** `data` is `None` when it is not hexadecimal text. */
  method DecodeEventArguments(params: seq<Parameter>, topics: seq<Topic>, data: Option<seq<nat>>)
    returns (decoded: map<string, Value>)
    ensures decoded
            == Decoded(params, topics, if data.Some? then data.value else [], Min(|params|, 64))
  {
    hide DecodeWord, DecodeDynamic;
    var raw: seq<nat> := if data.Some? then data.value else [];
    decoded := map[];
    var topicIndex, dataIndex := 1, 0;
    for index := 0 to Min(|params|, MAX_EVENT_ARGUMENTS)
      invariant topicIndex == 1 + IndexedBefore(params, index) && dataIndex == DataBefore(params, index)
      invariant decoded == Decoded(params, topics, raw, index)
    {
      var parameter := params[index];
      if parameter.NotAnObject? {
        continue;
      }
      var name := NameOf(parameter, index);
      if parameter.indexed {
        decoded := decoded[name := DecodeTopic(parameter.typeName, topics, topicIndex)];
        topicIndex := topicIndex + 1;
        continue;
      }
      decoded := decoded[name := DecodeData(parameter.typeName, raw, dataIndex * WORD)];
      dataIndex := dataIndex + 1;
    }
  }

  // ----- the encoding

  /** Type names of one word: address, bool, uintN, intN and bytesN. */
  predicate WordType(typeName: string) {
    && !DynamicType(typeName)
    && (typeName in {"address", "bool"} || StartsWith(typeName, "uint") || StartsWith(typeName, "int")
        || StartsWith(typeName, "bytes"))
  }

  predicate FitsWord(typeName: string, v: Value)
    requires WordType(typeName)
  {
    if typeName == "address" then v.HexValue? && !v.truncated && |v.bytes| == 20 && IsBytes(v.bytes)
    else if typeName == "bool" then v.BoolValue?
    else if StartsWith(typeName, "uint") then v.Number? && 0 <= v.n < Range(WORD)
    else if StartsWith(typeName, "int") then v.Number? && -(Range(WORD) as int) <= 2 * v.n < Range(WORD)
    else v.HexValue? && !v.truncated && |v.bytes| == FixedLength(typeName) && IsBytes(v.bytes)
  }

  /** Numbers and addresses are padded on the left, bytesN on the right. */
  function EncodeWord(typeName: string, v: Value): (w: seq<nat>)
    requires WordType(typeName) && FitsWord(typeName, v)
    ensures |w| == WORD && IsBytes(w)
  {
    if typeName == "address" then ZeroBytes(12) + v.bytes
    else if typeName == "bool" then ToBig(if v.flag then 1 else 0, WORD)
    else if StartsWith(typeName, "uint") then ToBig(v.n, WORD)
    else if StartsWith(typeName, "int") then ToBigSigned(v.n, WORD)
    else v.bytes + ZeroBytes(WORD - FixedLength(typeName))
  }

  datatype Argument = Argument(typeName: string, value: Value)

  /** string and bytes values, untruncated. */
  predicate FitsDynamic(typeName: string, v: Value) {
    && (typeName == "string" ==> v.TextValue?) && (typeName == "bytes" ==> v.HexValue?)
    && (v.TextValue? || v.HexValue?) && !v.truncated && IsBytes(v.bytes) && |v.bytes| < Range(WORD)
  }

  predicate Fits(a: Argument) {
    if DynamicType(a.typeName) then a.typeName in {"string", "bytes"} && FitsDynamic(a.typeName, a.value)
    else WordType(a.typeName) && FitsWord(a.typeName, a.value)
  }

  predicate AllFit(args: seq<Argument>) {
    forall i :: 0 <= i < |args| ==> Fits(args[i])
  }

  /** The length and the bytes, padded to whole words; nothing for a one-word value. */
  function TailOf(a: Argument): (s: seq<nat>)
    requires Fits(a)
    ensures Aligned(|s|)
  {
    if DynamicType(a.typeName) then ToBig(|a.value.bytes|, WORD) + a.value.bytes + ZeroBytes(Padding(|a.value.bytes|))
    else []
  }

  function HeadOf(a: Argument, offset: nat): (s: seq<nat>)
    requires Fits(a)
    ensures |s| == WORD
  {
    if DynamicType(a.typeName) then ToBig(offset, WORD) else EncodeWord(a.typeName, a.value)
  }

  function Tails(args: seq<Argument>, n: nat): (s: seq<nat>)
    requires n <= |args| && AllFit(args)
    ensures Aligned(|s|)
  {
    if n == 0 then []
    else
      AlignedSum(|Tails(args, n - 1)|, |TailOf(args[n - 1])|);
      Tails(args, n - 1) + TailOf(args[n - 1])
  }

  /** The offset in a head counts from the start of the data. */
  function OffsetOf(args: seq<Argument>, j: nat): nat
    requires j <= |args| && AllFit(args)
  {
    WORD * |args| + |Tails(args, j)|
  }

  function Heads(args: seq<Argument>, n: nat): (s: seq<nat>)
    requires n <= |args| && AllFit(args)
    ensures |s| == WORD * n
  {
    if n == 0 then [] else Heads(args, n - 1) + HeadOf(args[n - 1], OffsetOf(args, n - 1))
  }

  /** The head and tail encoding of an argument list. */
  function Encode(args: seq<Argument>): seq<nat>
    requires AllFit(args)
  {
    Heads(args, |args|) + Tails(args, |args|)
  }

  /** The data arguments, in order, and the topics after the signature's. */
  function DataArguments(params: seq<Parameter>, values: seq<Value>, n: nat): (args: seq<Argument>)
    requires n <= |params| == |values|
    ensures |args| == DataBefore(params, n)
  {
    if n == 0 then []
    else DataArguments(params, values, n - 1)
         + (if InData(params[n - 1]) then [Argument(params[n - 1].typeName, values[n - 1])] else [])
  }

  /** An indexed value of one word is its own topic; an indexed dynamic value is known only by
      its hash. */
  predicate FitsTopic(p: Parameter, v: Value)
    requires p.Parameter?
  {
    if DynamicType(p.typeName) then v.IndexedHash? else WordType(p.typeName) && FitsWord(p.typeName, v)
  }

  function TopicOf(p: Parameter, v: Value): Topic
    requires p.Parameter? && FitsTopic(p, v)
  {
    if DynamicType(p.typeName) then v.topic else HexTopic(EncodeWord(p.typeName, v))
  }

  /** Entries that are not objects take no value. */
  predicate FitsParameter(p: Parameter, v: Value) {
    if p.NotAnObject? then true else if p.indexed then FitsTopic(p, v) else Fits(Argument(p.typeName, v))
  }

  predicate FitsAll(params: seq<Parameter>, values: seq<Value>) {
    |params| == |values| && forall i :: 0 <= i < |params| ==> FitsParameter(params[i], values[i])
  }

  function Topics(params: seq<Parameter>, values: seq<Value>, signature: Topic, n: nat): (topics: seq<Topic>)
    requires FitsAll(params, values) && n <= |params|
    ensures |topics| == 1 + IndexedBefore(params, n)
  {
    if n == 0 then [signature]
    else Topics(params, values, signature, n - 1)
         + (if InTopics(params[n - 1]) then [TopicOf(params[n - 1], values[n - 1])] else [])
  }

  lemma {:induction false} DataArgumentsFit(params: seq<Parameter>, values: seq<Value>, n: nat)
    requires FitsAll(params, values) && n <= |params|
    ensures AllFit(DataArguments(params, values, n))
  {
    if n > 0 {
      DataArgumentsFit(params, values, n - 1);
      assert FitsParameter(params[n - 1], values[n - 1]);
    }
  }

  /** The data of an event: its parameters that are not indexed. */
  function EncodeData(params: seq<Parameter>, values: seq<Value>): seq<nat>
    requires FitsAll(params, values)
  {
    DataArgumentsFit(params, values, |params|);
    Encode(DataArguments(params, values, |params|))
  }

  // ----- decoding inverts encoding

  lemma OneIsSmall()
    ensures 1 < Range(WORD)
  {
    assert Range(WORD) == 256 * Range(WORD - 1);
  }

  lemma WordRoundTrip(typeName: string, v: Value)
    requires WordType(typeName) && FitsWord(typeName, v)
    ensures DecodeWord(typeName, EncodeWord(typeName, v)) == v
  {
    hide Range, FromBig, ToBig, FixedLength;
    var w := EncodeWord(typeName, v);
    if typeName == "address" {
      assert w[12..] == v.bytes;
    } else if typeName == "bool" {
      OneIsSmall();
      FromToBig(if v.flag then 1 else 0, WORD);
    } else if StartsWith(typeName, "uint") {
      FromToBig(v.n, WORD);
    } else if StartsWith(typeName, "int") {
      FromToBigSigned(v.n, WORD);
    } else {
      assert w[..FixedLength(typeName)] == v.bytes;
    }
  }

  /** How words are read: uint and int with any suffix as numbers, unsigned and signed, an address as the
      last 20 bytes and a bool as whether any bit is set. */
  lemma WordNames(x: string, word: seq<nat>)
    requires |word| == 32
    ensures DecodeWord("uint" + x, word) == Number(FromBig(word))
    ensures DecodeWord("int" + x, word) == Number(FromBigSigned(word))
    ensures DecodeWord("address", word) == HexValue(word[12..], false)
    ensures DecodeWord("bool", word) == BoolValue(FromBig(word) != 0)
  {
    hide FromBig, FromBigSigned, FixedLength;
    assert ("uint" + x)[..4] == "uint" && ("int" + x)[..3] == "int";
    assert ("uint" + x)[0] == 'u' && ("int" + x)[0] == 'i' && ("int" + x)[1] == 'n';
  }

  /** What lies at an offset: a string, bytes, an array and a tuple, and no number, address or bool. */
  lemma OffsetNames(x: string, y: string)
    ensures DynamicType("string") && DynamicType("bytes") && DynamicType("(" + x)
    ensures DynamicType(x + "[" + y)
    ensures !DynamicType("address") && !DynamicType("bool")
    ensures AllDigits(x) ==> !DynamicType("uint" + x) && !DynamicType("int" + x)
  {
    assert ("(" + x)[..1] == "(" && (x + "[" + y)[|x|] == '[';
    NotAtOffset("address", "");
    assert "address" + "" == "address";
    if AllDigits(x) {
      NotAtOffset("uint", x);
      NotAtOffset("int", x);
    }
  }

  lemma NotAtOffset(prefix: string, digits: string)
    requires prefix != [] && prefix[0] !in {'(', 's', 'b'} && '[' !in prefix && AllDigits(digits)
    ensures !DynamicType(prefix + digits)
  {
    assert (prefix + digits)[0] == prefix[0];
  }

  /** A parameter without a name is known by its place among all entries. */
  lemma ParameterNames(name: string, typeName: string, indexed: bool, index: nat)
    ensures NameOf(Parameter("", typeName, indexed), index) == "arg" + Show(index)
    ensures name != "" ==> NameOf(Parameter(name, typeName, indexed), index) == name
  {
  }

  /** The values the round trips speak of: every number of the word's range, signed or not, both bools,
      every 20-byte address, N bytes for bytesN, and texts and bytes of any length below the range. */
  lemma ValuesThatFit(n: int, flag: bool, bytes: seq<nat>, length: nat)
    requires IsBytes(bytes) && 1 <= length <= 32
    ensures Fits(Argument("uint256", Number(n))) <==> 0 <= n < Range(32)
    ensures Fits(Argument("int256", Number(n))) <==> -(Range(32) as int) <= 2 * n < Range(32)
    ensures Fits(Argument("bool", BoolValue(flag)))
    ensures Fits(Argument("address", HexValue(bytes, false))) <==> |bytes| == 20
    ensures Fits(Argument("bytes" + Show(length), HexValue(bytes, false))) <==> |bytes| == length
    ensures Fits(Argument("bytes", HexValue(bytes, false))) <==> |bytes| < Range(32)
    ensures Fits(Argument("string", TextValue(bytes, false))) <==> |bytes| < Range(32)
  {
    hide Range, Show, FixedLength, DynamicType;
    OffsetNames("256", "");
    assert "uint" + "256" == "uint256" && "int" + "256" == "int256";
    assert "uint256"[..4] == "uint" && "int256"[..3] == "int" && "uint256"[0] == 'u' && "int256"[0] == 'i';
    FixedTypeName(length);
  }

  /** What is missing or malformed is marked, not guessed: a topic or a head beyond the end, an offset
      that is not a whole word inside the data, and the types whose content is not decoded. */
  lemma MalformedValues(typeName: string, topics: seq<Topic>, k: nat, raw: seq<nat>, at: nat)
    ensures k >= |topics| ==> DecodeTopic(typeName, topics, k) == Marker("<missing-topic>")
    ensures k < |topics| && !DynamicType(typeName) && (topics[k].BadTopic? || |topics[k].bytes| != 32) ==>
              DecodeTopic(typeName, topics, k) == Marker("<invalid-topic>")
    ensures !DynamicType(typeName) && at + 32 > |raw| ==> DecodeData(typeName, raw, at) == Marker("<missing-data>")
    ensures DynamicType(typeName) && at + 32 > |raw| ==> DecodeData(typeName, raw, at) == Marker("<unavailable>")
    ensures DynamicType(typeName) && at + 32 <= |raw| ==>
              var offset := FromBig(raw[at..at + 32]);
              && (offset % 32 != 0 || offset + 32 > |raw| ==>
                    DecodeData(typeName, raw, at) == Marker("<invalid-offset>"))
              && (offset % 32 == 0 && offset + 32 <= |raw| && typeName != "string" && typeName != "bytes" ==>
                    DecodeData(typeName, raw, at) == Marker("<dynamic:" + typeName + ">"))
  {
    hide FromBig, DecodeWord, DynamicType;
  }

  /** A string or bytes value whose length says more than there is gives what there is, flagged. */
  lemma CutShort(raw: seq<nat>, at: nat)
    requires at + 32 <= |raw|
    ensures var offset := FromBig(raw[at..at + 32]);
            offset % 32 == 0 && offset + 32 <= |raw| && FromBig(raw[offset..offset + 32]) > |raw| - offset - 32 ==>
              var bytes := raw[offset + 32..offset + 32 + Min(4096, |raw| - offset - 32)];
              && DecodeData("bytes", raw, at) == HexValue(bytes, true)
              && DecodeData("string", raw, at) == TextValue(bytes, true)
  {
    hide FromBig, DecodeWord;
  }

  /** The type names bytes1 to bytes32. */
  lemma FixedTypeName(n: nat)
    requires 1 <= n <= 32
    ensures var t := "bytes" + Show(n);
            && t != "bytes" && t != "address" && t != "bool" && StartsWith(t, "bytes")
            && !StartsWith(t, "uint") && !StartsWith(t, "int") && !DynamicType(t) && FixedLength(t) == n
  {
    var t := "bytes" + Show(n);
    ReadShow(n);
    assert t[5..] == Show(n) && t[..5] == "bytes";
    assert t[0] == 'b' && t[1] == 'y' && |t| > 5;
    assert forall i :: 0 <= i < |t| ==> t[i] != '[' by {
      assert forall i :: 5 <= i < |t| ==> t[i] == Show(n)[i - 5];
    }
  }

  /** A value of type bytesN is the first N bytes of its word, as a word, a topic or a head slot. */
  lemma FixedBytesDecode(n: nat, b: seq<nat>, topics: seq<Topic>, k: nat, raw: seq<nat>, offset: nat)
    requires 1 <= n <= 32 && |b| == n
    ensures var t, word := "bytes" + Show(n), b + ZeroBytes(32 - n);
            && DecodeWord(t, word) == HexValue(b, false)
            && (k < |topics| && topics[k] == HexTopic(word) ==> DecodeTopic(t, topics, k) == HexValue(b, false))
            && (offset + 32 <= |raw| && raw[offset..offset + 32] == word ==>
                  DecodeData(t, raw, offset) == HexValue(b, false))
  {
    hide FixedLength, DynamicType, Show, StartsWith;
    FixedTypeName(n);
    var word := b + ZeroBytes(32 - n);
    assert word[..n] == b;
  }

  lemma {:induction false} HeadAt(args: seq<Argument>, n: nat, j: nat)
    requires AllFit(args) && j < n <= |args|
    ensures LiesAt(Heads(args, n), WORD * j, HeadOf(args[j], OffsetOf(args, j)))
    decreases n
  {
    hide HeadOf, OffsetOf, Fits;
    var before, last := Heads(args, n - 1), HeadOf(args[n - 1], OffsetOf(args, n - 1));
    if j < n - 1 {
      HeadAt(args, n - 1, j);
      SliceLeft(before, last, WORD * j, WORD * j + WORD);
    } else {
      SliceRight(before, last, 0, WORD);
    }
  }

  lemma {:induction false} TailAt(args: seq<Argument>, n: nat, j: nat)
    requires AllFit(args) && j < n <= |args|
    ensures LiesAt(Tails(args, n), |Tails(args, j)|, TailOf(args[j]))
    decreases n
  {
    hide TailOf, Fits, Aligned;
    var before, last := Tails(args, n - 1), TailOf(args[n - 1]);
    if j < n - 1 {
      TailAt(args, n - 1, j);
      SliceLeft(before, last, |Tails(args, j)|, |Tails(args, j)| + |TailOf(args[j])|);
    } else {
      SliceRight(before, last, 0, |last|);
    }
  }

  /** Where the encoding of argument j lies in the whole. */
  lemma EncodeAt(args: seq<Argument>, j: nat)
    requires AllFit(args) && j < |args|
    ensures LiesAt(Encode(args), WORD * j, HeadOf(args[j], OffsetOf(args, j)))
    ensures Aligned(OffsetOf(args, j)) && LiesAt(Encode(args), OffsetOf(args, j), TailOf(args[j]))
  {
    hide HeadOf, TailOf, Heads, Tails, Fits, Aligned, LiesAt;
    HeadAt(args, |args|, j);
    TailAt(args, |args|, j);
    WholeWords(|args|);
    AlignedSum(WORD * |args|, |Tails(args, j)|);
    InWhole(Heads(args, |args|), Tails(args, |args|), WORD * j, HeadOf(args[j], OffsetOf(args, j)), |Tails(args, j)|,
            TailOf(args[j]));
  }

  /** What decoding makes of a dynamic value: its first bytes up to the cap. */
  function Capped(v: Value): Value
    requires v.TextValue? || v.HexValue?
  {
    var bytes := Take(v.bytes, 4096);
    if v.TextValue? then TextValue(bytes, |v.bytes| > 4096)
    else HexValue(bytes, |v.bytes| > 4096)
  }

  lemma TailIs(a: Argument)
    requires Fits(a) && DynamicType(a.typeName)
    ensures TailOf(a) == ToBig(|a.value.bytes|, WORD) + a.value.bytes + ZeroBytes(Padding(|a.value.bytes|))
  {
  }

  lemma DecodesTo(typeName: string, raw: seq<nat>, headOffset: nat, at: nat, bytes: seq<nat>)
    requires typeName in {"string", "bytes"} && headOffset + WORD <= |raw| && FromBig(WordAt(raw, headOffset)) == at
    requires Aligned(at) && at + WORD <= |raw| && FromBig(WordAt(raw, at)) == |bytes| && LiesAt(raw, at + WORD, bytes)
    ensures DecodeDynamic(typeName, raw, headOffset) ==
            Capped(if typeName == "string" then TextValue(bytes, false) else HexValue(bytes, false))
  {
    hide FromBig, Aligned;
    var selected := Min(|bytes|, MAX_DYNAMIC_EVENT_BYTES);
    SliceOfSlice(raw, at + WORD, |bytes|, 0, selected);
  }

  lemma DynamicRoundTrip(a: Argument, raw: seq<nat>, headOffset: nat, at: nat)
    requires Fits(a) && DynamicType(a.typeName) && at < Range(WORD) && Aligned(at)
    requires LiesAt(raw, headOffset, HeadOf(a, at)) && LiesAt(raw, at, TailOf(a))
    ensures DecodeDynamic(a.typeName, raw, headOffset) == Capped(a.value)
  {
    var bytes := a.value.bytes;
    TailIs(a);
    assert HeadOf(a, at) == ToBig(at, WORD);
    hide Range, ToBig, FromBig, TailOf, HeadOf, Aligned, Padding, LiesAt, DecodeDynamic, Capped;
    FromToBig(at, WORD);
    FromToBig(|bytes|, WORD);
    LiesInParts(raw, at, ToBig(|bytes|, WORD), bytes, ZeroBytes(Padding(|bytes|)));
    LiesIsWord(raw, headOffset, ToBig(at, WORD));
    LiesIsWord(raw, at, ToBig(|bytes|, WORD));
    DecodesTo(a.typeName, raw, headOffset, at, bytes);
  }

  /** What decoding returns for an encoded parameter. */
  function Expected(p: Parameter, v: Value): Value
    requires p.Parameter? && FitsParameter(p, v)
  {
    if !p.indexed && DynamicType(p.typeName) then Capped(v) else v
  }

  lemma {:induction false} DataArgumentAt(params: seq<Parameter>, values: seq<Value>, n: nat, i: nat)
    requires i < n <= |params| == |values| && InData(params[i])
    ensures DataBefore(params, i) < DataBefore(params, n)
    ensures DataArguments(params, values, n)[DataBefore(params, i)] == Argument(params[i].typeName, values[i])
    decreases n
  {
    if i < n - 1 {
      DataArgumentAt(params, values, n - 1, i);
    }
  }

  lemma {:induction false} TopicAt(params: seq<Parameter>, values: seq<Value>, signature: Topic, n: nat, i: nat)
    requires FitsAll(params, values) && i < n <= |params| && InTopics(params[i])
    ensures IndexedBefore(params, i) < IndexedBefore(params, n)
    ensures Topics(params, values, signature, n)[1 + IndexedBefore(params, i)] == TopicOf(params[i], values[i])
    decreases n
  {
    hide TopicOf, FitsParameter;
    if i < n - 1 {
      TopicAt(params, values, signature, n - 1, i);
    }
  }

  lemma DataRoundTrip(args: seq<Argument>, j: nat)
    requires AllFit(args) && j < |args| && |Encode(args)| < Range(WORD)
    ensures var a := args[j];
            DecodeData(a.typeName, Encode(args), WORD * j)
            == if DynamicType(a.typeName) then Capped(a.value) else a.value
  {
    EncodeAt(args, j);
    var a := args[j];
    assert Fits(a);
    hide Range, DecodeWord, EncodeWord, DecodeDynamic, Capped, Encode, TailOf, OffsetOf, Aligned, DynamicType;
    if DynamicType(a.typeName) {
      DynamicRoundTrip(a, Encode(args), WORD * j, OffsetOf(args, j));
    } else {
      LiesIsWord(Encode(args), WORD * j, EncodeWord(a.typeName, a.value));
      WordRoundTrip(a.typeName, a.value);
    }
  }

  lemma TopicDecodes(p: Parameter, v: Value, topics: seq<Topic>, at: nat)
    requires p.Parameter? && FitsTopic(p, v) && at < |topics| && topics[at] == TopicOf(p, v)
    ensures DecodeTopic(p.typeName, topics, at) == v
  {
    hide DecodeWord, EncodeWord, FitsWord, DynamicType, WordType;
    if !DynamicType(p.typeName) {
      WordRoundTrip(p.typeName, v);
    }
  }

  lemma TopicRoundTrip(params: seq<Parameter>, values: seq<Value>, signature: Topic, i: nat)
    requires FitsAll(params, values) && i < |params| && InTopics(params[i])
    ensures DecodeTopic(params[i].typeName, Topics(params, values, signature, |params|), 1 + IndexedBefore(params, i))
            == values[i]
  {
    assert FitsParameter(params[i], values[i]);
    hide Topics, DecodeTopic, TopicOf, FitsTopic;
    TopicAt(params, values, signature, |params|, i);
    TopicDecodes(params[i], values[i], Topics(params, values, signature, |params|), 1 + IndexedBefore(params, i));
  }

  lemma ParameterRoundTrip(params: seq<Parameter>, values: seq<Value>, signature: Topic, i: nat)
    requires FitsAll(params, values) && i < |params| && params[i].Parameter?
             && |EncodeData(params, values)| < Range(WORD)
    ensures DecodedAt(params, Topics(params, values, signature, |params|), EncodeData(params, values), i)
         == Expected(params[i], values[i])
  {
    hide Range, DecodeTopic, DecodeData, Capped, Encode, Topics, DynamicType, FitsParameter, Fits, AllFit,
         IndexedBefore, DataBefore, DataArguments;
    DataArgumentsFit(params, values, |params|);
    if params[i].indexed {
      TopicRoundTrip(params, values, signature, i);
    } else {
      DataArgumentAt(params, values, |params|, i);
      DataRoundTrip(DataArguments(params, values, |params|), DataBefore(params, i));
    }
  }

  /** No two parameters share a name. */
  predicate DistinctNames(params: seq<Parameter>) {
    forall i, j :: 0 <= i < j < |params| && params[i].Parameter? && params[j].Parameter? ==>
      NameOf(params[i], i) != NameOf(params[j], j)
  }

  function NamesOf(params: seq<Parameter>, n: nat): set<string>
    requires n <= |params|
  {
    set i | 0 <= i < n && params[i].Parameter? :: NameOf(params[i], i)
  }

  lemma {:induction false} DecodedEntries(params: seq<Parameter>, topics: seq<Topic>, raw: seq<nat>, n: nat)
    requires n <= |params| && DistinctNames(params)
    ensures Decoded(params, topics, raw, n).Keys == NamesOf(params, n)
    ensures forall i :: 0 <= i < n && params[i].Parameter? ==>
              NameOf(params[i], i) in Decoded(params, topics, raw, n)
              && Decoded(params, topics, raw, n)[NameOf(params[i], i)] == DecodedAt(params, topics, raw, i)
  {
    hide DecodedAt, NameOf;
    if n > 0 {
      DecodedEntries(params, topics, raw, n - 1);
      assert NamesOf(params, n) ==
             NamesOf(params, n - 1) + (if params[n - 1].Parameter? then {NameOf(params[n - 1], n - 1)} else {});
    }
  }

  /** Decoding inverts encoding: with distinct names, each parameter among the first 64 entries
      decodes to the value encoded, a string or bytes value to its first 4,096 bytes and an indexed
      dynamic one to its topic; nothing else is decoded. */
  lemma DecodingInvertsEncoding(params: seq<Parameter>, values: seq<Value>, signature: Topic)
    requires FitsAll(params, values) && |EncodeData(params, values)| < Range(WORD) && DistinctNames(params)
    ensures var n := Min(|params|, 64);
            var decoded := Decoded(params, Topics(params, values, signature, |params|), EncodeData(params, values), n);
            && (forall i :: 0 <= i < n && params[i].Parameter? ==>
                  NameOf(params[i], i) in decoded && decoded[NameOf(params[i], i)] == Expected(params[i], values[i]))
            && decoded.Keys == NamesOf(params, n)
  {
    hide DecodedAt, NameOf, Decoded, EncodeData, Expected, Range, Topics, DistinctNames;
    var topics, raw := Topics(params, values, signature, |params|), EncodeData(params, values);
    var n := Min(|params|, MAX_EVENT_ARGUMENTS);
    DecodedEntries(params, topics, raw, n);
    forall i | 0 <= i < n && params[i].Parameter?
      ensures DecodedAt(params, topics, raw, i) == Expected(params[i], values[i])
    {
      ParameterRoundTrip(params, values, signature, i);
    }
  }
}
