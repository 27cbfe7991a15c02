/** Token transfers read off receipt logs, and the event encodings they invert. */
module TokenLogs {
  import opened Basics
  import opened Decimal
  import opened CallTrace
  import opened PythonInt
  import opened PythonText
  import opened AbiWords
  import opened AbiEvents

  const MAX_TRANSFERS: nat := 20000
  const MAX_ERC1155_BATCH_ITEMS: nat := 256

  // ----- decoding arrays of uint256

  function DecodedWord(raw: seq<nat>, offset: nat): Option<nat> {
    if offset + WORD > |raw| then None else Some(FromBig(WordAt(raw, offset)))
  }

  function WordsFrom(raw: seq<nat>, start: nat, n: nat): (words: seq<nat>)
    requires start + WORD * n <= |raw|
    ensures |words| == n
  {
    if n == 0 then [] else WordsFrom(raw, start, n - 1) + [FromBig(WordAt(raw, start + WORD * (n - 1)))]
  }

  function DecodeUintArray(raw: seq<nat>, headOffset: nat): Option<seq<nat>> {
    var relative := DecodedWord(raw, headOffset);
    if relative.None? || !Aligned(relative.value) || relative.value + WORD > |raw| then None
    else
      var length := DecodedWord(raw, relative.value);
      if length.None? || length.value > MAX_ERC1155_BATCH_ITEMS then None
      else
        var start := relative.value + WORD;
        if start + length.value * WORD > |raw| then None else Some(WordsFrom(raw, start, length.value))
  }

  // ----- logs

  /** The first topic, compared with the three transfer signatures. */
  datatype Signature = TransferTopic | TransferSingleTopic | TransferBatchTopic | OtherTopic

  /** `arguments` are the topics after the first; `signature` is `None` for a log without topics,
      `token` and `data` when they are malformed. */
  datatype Log = Log(token: Option<Address>, signature: Option<Signature>, arguments: seq<Topic>,
                     data: Option<seq<nat>>, index: nat)

  datatype AssetType = Erc20 | Erc721 | Erc1155

  datatype AssetTransfer = AssetTransfer(
    transferId: string, assetType: AssetType, token: Address, sender: Address, recipient: Address,
    amount: nat, tokenId: Option<int>, operator: Option<Address>, evidenceRef: string, effect: Effect)

  datatype Notice = Capped | SingleUndecodable(index: nat) | BatchUndecodable(index: nat) | UnequalLengths(index: nat)

  function TopicAddress(t: Topic): Option<Address> {
    if t.HexTopic? && |t.bytes| == WORD then Some(FromBig(t.bytes[WORD - 20..])) else None
  }

  function TransferId(logIndex: nat, index: nat): string {
    "transfer:" + Show(logIndex) + ":" + Show(index)
  }

  function EvidenceRef(logIndex: nat): string {
    "log:" + Show(logIndex)
  }

  /** A topic read as a number, whether or not its digits make whole bytes; `None` when that raises. */
  function TopicNumber(t: Topic): Option<int> {
    match t
    case HexTopic(bytes) => if bytes == [] then None else Some(FromBig(bytes))
    case BadTopic(text) => HexNumber(text)
  }

  /** An ERC-721 transfer whose parties are readable reads its fourth topic as a number, which must
      not raise. */
  predicate Readable(log: Log) {
    log.signature == Some(TransferTopic) && log.token.Some? && log.data.Some? && |log.arguments| >= 3
    && TopicAddress(log.arguments[0]).Some? && TopicAddress(log.arguments[1]).Some? ==>
      TopicNumber(log.arguments[2]).Some?
  }

  /** What one log contributes, and the notice it may cause. */
  function TransferTransfers(log: Log, effect: Effect): seq<AssetTransfer>
    requires log.token.Some? && log.data.Some? && Readable(log) && log.signature == Some(TransferTopic)
  {
    var sender := if |log.arguments| > 0 then TopicAddress(log.arguments[0]) else None;
    var recipient := if |log.arguments| > 1 then TopicAddress(log.arguments[1]) else None;
    if sender.None? || recipient.None? then []
    else if |log.arguments| >= 3 then
      [AssetTransfer(TransferId(log.index, 0), Erc721, log.token.value, sender.value, recipient.value, 1,
                     TopicNumber(log.arguments[2]), None, EvidenceRef(log.index), effect)]
    else if |log.data.value| >= WORD then
      [AssetTransfer(TransferId(log.index, 0), Erc20, log.token.value, sender.value, recipient.value,
                     FromBig(WordAt(log.data.value, 0)), None, None, EvidenceRef(log.index), effect)]
    else []
  }

  function SingleTransfers(log: Log, effect: Effect): (seq<AssetTransfer>, seq<Notice>)
    requires log.token.Some? && log.data.Some? && |log.arguments| >= 3
  {
    var operator, sender, recipient :=
      TopicAddress(log.arguments[0]), TopicAddress(log.arguments[1]), TopicAddress(log.arguments[2]);
    var tokenId, amount := DecodedWord(log.data.value, 0), DecodedWord(log.data.value, WORD);
    if sender.None? || recipient.None? then ([], [])
    else if tokenId.None? || amount.None? then ([], [SingleUndecodable(log.index)])
    else ([AssetTransfer(TransferId(log.index, 0), Erc1155, log.token.value, sender.value, recipient.value,
                         amount.value, tokenId, operator, EvidenceRef(log.index), effect)], [])
  }

  function BatchItem(log: Log, operator: Option<Address>, sender: Address, recipient: Address,
                     tokenId: nat, amount: nat, index: nat, effect: Effect): AssetTransfer
    requires log.token.Some?
  {
    AssetTransfer(TransferId(log.index, index), Erc1155, log.token.value, sender, recipient, amount,
                  Some(tokenId), operator, EvidenceRef(log.index), effect)
  }

  function BatchItems(log: Log, operator: Option<Address>, sender: Address, recipient: Address,
                      tokenIds: seq<nat>, amounts: seq<nat>, n: nat, effect: Effect): (items: seq<AssetTransfer>)
    requires log.token.Some? && n <= |tokenIds| == |amounts|
    ensures |items| == n
  {
    if n == 0 then []
    else BatchItems(log, operator, sender, recipient, tokenIds, amounts, n - 1, effect)
         + [BatchItem(log, operator, sender, recipient, tokenIds[n - 1], amounts[n - 1], n - 1, effect)]
  }

  function BatchTransfers(log: Log, effect: Effect): (seq<AssetTransfer>, seq<Notice>)
    requires log.token.Some? && log.data.Some? && |log.arguments| >= 3
  {
    var operator, sender, recipient :=
      TopicAddress(log.arguments[0]), TopicAddress(log.arguments[1]), TopicAddress(log.arguments[2]);
    var tokenIds, amounts := DecodeUintArray(log.data.value, 0), DecodeUintArray(log.data.value, WORD);
    if sender.None? || recipient.None? then ([], [])
    else if tokenIds.None? || amounts.None? then ([], [BatchUndecodable(log.index)])
    else if |tokenIds.value| != |amounts.value| then ([], [UnequalLengths(log.index)])
    else
      var n := |tokenIds.value|;
      (BatchItems(log, operator, sender.value, recipient.value, tokenIds.value, amounts.value, n, effect), [])
  }

  function LogTransfers(log: Log, effect: Effect): (seq<AssetTransfer>, seq<Notice>)
    requires Readable(log)
  {
    if log.signature.None? || log.token.None? || log.data.None? then ([], [])
    else match log.signature.value
      case TransferTopic => (TransferTransfers(log, effect), [])
      case TransferSingleTopic => if |log.arguments| >= 3 then SingleTransfers(log, effect) else ([], [])
      case TransferBatchTopic => if |log.arguments| >= 3 then BatchTransfers(log, effect) else ([], [])
      case OtherTopic => ([], [])
  }

  predicate AllReadable(logs: seq<Log>) {
    forall i :: 0 <= i < |logs| ==> Readable(logs[i])
  }

  /** Every transfer of every log, uncapped. */
  function AllTransfers(logs: seq<Log>, effect: Effect, n: nat): seq<AssetTransfer>
    requires AllReadable(logs) && n <= |logs|
  {
    if n == 0 then [] else AllTransfers(logs, effect, n - 1) + LogTransfers(logs[n - 1], effect).0
  }

  function AllNotices(logs: seq<Log>, effect: Effect, n: nat): seq<Notice>
    requires AllReadable(logs) && n <= |logs|
  {
    if n == 0 then [] else AllNotices(logs, effect, n - 1) + LogTransfers(logs[n - 1], effect).1
  }

  /** How many of the first n logs are read: those that start below the cap. */
  function LogsRead(logs: seq<Log>, effect: Effect, n: nat): (m: nat)
    requires AllReadable(logs) && n <= |logs|
    ensures m <= n
  {
    if n == 0 then 0
    else if |AllTransfers(logs, effect, n - 1)| < MAX_TRANSFERS then n
    else LogsRead(logs, effect, n - 1)
  }

  /** The cap is announced when a transfer is dropped or a log is left unread. */
  predicate CapAnnounced(logs: seq<Log>, effect: Effect)
    requires AllReadable(logs)
  {
    |AllTransfers(logs, effect, |logs|)| > MAX_TRANSFERS || LogsRead(logs, effect, |logs|) < |logs|
  }

  lemma {:induction false} AllTransfersGrow(logs: seq<Log>, effect: Effect, m: nat, n: nat)
    requires AllReadable(logs) && m <= n <= |logs|
    ensures AllTransfers(logs, effect, m) <= AllTransfers(logs, effect, n)
  {
    hide LogTransfers, Readable;
    if m < n {
      AllTransfersGrow(logs, effect, m, n - 1);
    }
  }

  lemma {:induction false} ReadUpTo(logs: seq<Log>, effect: Effect, m: nat, n: nat)
    requires AllReadable(logs) && m <= n <= |logs| && LogsRead(logs, effect, m) == m
    requires m < n ==> |AllTransfers(logs, effect, m)| >= MAX_TRANSFERS
    ensures LogsRead(logs, effect, n) == m
  {
    hide AllTransfers, Readable;
    if m < n {
      AllTransfersGrow(logs, effect, m, n - 1);
      ReadUpTo(logs, effect, m, n - 1);
    }
  }

  /** Append one log's transfers; `full` when some did not fit. */
  method AppendLog(before: seq<AssetTransfer>, log: Log, effect: Effect)
    returns (transfers: seq<AssetTransfer>, notices: seq<Notice>, full: bool)
    requires Readable(log) && |before| < MAX_TRANSFERS
    ensures var (items, raised) := LogTransfers(log, effect);
            && transfers == before + Take(items, MAX_TRANSFERS - |before|)
            && (full <==> |before| + |items| > MAX_TRANSFERS)
            && notices == raised + (if full then [Capped] else [])
  {
    hide BatchTransfers;
    transfers, notices, full := before, [], false;
    if log.signature.None? || log.token.None? || log.data.None? {
      return;
    }
    if log.signature.value == TransferTopic {
      transfers := transfers + TransferTransfers(log, effect);
    } else if log.signature.value == TransferSingleTopic && |log.arguments| >= 3 {
      var (items, raised) := SingleTransfers(log, effect);
      transfers, notices := transfers + items, raised;
    } else if log.signature.value == TransferBatchTopic && |log.arguments| >= 3 {
      transfers, notices, full := AppendBatchLog(before, log, effect);
    }
  }

  method AppendBatchLog(before: seq<AssetTransfer>, log: Log, effect: Effect)
    returns (transfers: seq<AssetTransfer>, notices: seq<Notice>, full: bool)
    requires log.token.Some? && log.data.Some? && |log.arguments| >= 3 && |before| < MAX_TRANSFERS
    ensures var (items, raised) := BatchTransfers(log, effect);
            && transfers == before + Take(items, MAX_TRANSFERS - |before|)
            && (full <==> |before| + |items| > MAX_TRANSFERS)
            && notices == raised + (if full then [Capped] else [])
  {
    hide DecodeUintArray, TopicAddress;
    transfers, notices, full := before, [], false;
    var operator, sender, recipient :=
      TopicAddress(log.arguments[0]), TopicAddress(log.arguments[1]), TopicAddress(log.arguments[2]);
    var tokenIds, amounts := DecodeUintArray(log.data.value, 0), DecodeUintArray(log.data.value, WORD);
    if sender.Some? && recipient.Some? && tokenIds.Some? && amounts.Some? {
      if |tokenIds.value| != |amounts.value| {
        notices := [UnequalLengths(log.index)];
        return;
      }
      transfers, full := AppendBatch(transfers, log, operator, sender.value, recipient.value,
                                     tokenIds.value, amounts.value, effect);
      notices := if full then [Capped] else [];
    } else if sender.Some? && recipient.Some? {
      notices := [BatchUndecodable(log.index)];
    }
  }

  method AppendBatch(before: seq<AssetTransfer>, log: Log, operator: Option<Address>, sender: Address,
                     recipient: Address,
                     tokenIds: seq<nat>, amounts: seq<nat>, effect: Effect)
    returns (transfers: seq<AssetTransfer>, full: bool)
    requires log.token.Some? && |tokenIds| == |amounts| && |before| < MAX_TRANSFERS
    ensures transfers == before
                         + Take(BatchItems(log, operator, sender, recipient, tokenIds, amounts, |tokenIds|, effect),
                                MAX_TRANSFERS - |before|)
    ensures full <==> |before| + |tokenIds| > MAX_TRANSFERS
  {
    hide BatchItem;
    transfers := before;
    var remaining := MAX_TRANSFERS - |transfers|;
    var selected := Min(|tokenIds|, remaining);
    for index := 0 to selected
      invariant transfers == before + BatchItems(log, operator, sender, recipient, tokenIds, amounts, index, effect)
    {
      var item := BatchItem(log, operator, sender, recipient, tokenIds[index], amounts[index], index, effect);
      transfers := transfers + [item];
    }
    full := selected < |tokenIds|;
    BatchItemsGrow(log, operator, sender, recipient, tokenIds, amounts, selected, |tokenIds|, effect);
  }

  lemma {:induction false} BatchItemsGrow(log: Log, operator: Option<Address>, sender: Address, recipient: Address,
                                          tokenIds: seq<nat>, amounts: seq<nat>, m: nat, n: nat, effect: Effect)
    requires log.token.Some? && m <= n <= |tokenIds| == |amounts|
    ensures BatchItems(log, operator, sender, recipient, tokenIds, amounts, n, effect)[..m]
         == BatchItems(log, operator, sender, recipient, tokenIds, amounts, m, effect)
  {
    hide BatchItem;
    if m < n {
      BatchItemsGrow(log, operator, sender, recipient, tokenIds, amounts, m, n - 1, effect);
    }
  }

  /** The transfers are the first 20,000 of all transfers, in log order; every log that starts
      below the cap raises its notice, and the cap is announced when anything is dropped or left
      unread. */
  method TransfersFromLogs(logs: seq<Log>, effect: Effect) returns (transfers: seq<AssetTransfer>, notices: seq<Notice>)
    requires AllReadable(logs)
    ensures transfers == Take(AllTransfers(logs, effect, |logs|), 20000)
    ensures notices == AllNotices(logs, effect, LogsRead(logs, effect, |logs|))
                       + (if CapAnnounced(logs, effect) then [Capped] else [])
  {
    hide LogTransfers, Readable, AllTransfers, AllNotices, LogsRead, Take;
    NoLogs(logs, effect);
    transfers, notices := [], [];
    for ordinal := 0 to |logs|
      invariant transfers == AllTransfers(logs, effect, ordinal) && |transfers| <= MAX_TRANSFERS
      invariant notices == AllNotices(logs, effect, ordinal) && LogsRead(logs, effect, ordinal) == ordinal
    {
      if |transfers| >= MAX_TRANSFERS {
        notices := notices + [Capped];
        StoppedAt(logs, effect, ordinal);
        return;
      }
      NextLog(logs, effect, ordinal);
      var raised, full;
      ghost var before, items := transfers, LogTransfers(logs[ordinal], effect).0;
      transfers, raised, full := AppendLog(transfers, logs[ordinal], effect);
      notices := notices + raised;
      TakeShare(before, items, MAX_TRANSFERS);
      if full {
        StoppedAt(logs, effect, ordinal + 1);
        return;
      }
    }
    TakeShare([], transfers, MAX_TRANSFERS);
  }

  lemma NoLogs(logs: seq<Log>, effect: Effect)
    requires AllReadable(logs)
    ensures AllTransfers(logs, effect, 0) == [] && AllNotices(logs, effect, 0) == [] && LogsRead(logs, effect, 0) == 0
  {
  }

  lemma NextLog(logs: seq<Log>, effect: Effect, n: nat)
    requires AllReadable(logs) && n < |logs| && |AllTransfers(logs, effect, n)| < MAX_TRANSFERS
    ensures AllTransfers(logs, effect, n + 1) == AllTransfers(logs, effect, n) + LogTransfers(logs[n], effect).0
    ensures AllNotices(logs, effect, n + 1) == AllNotices(logs, effect, n) + LogTransfers(logs[n], effect).1
    ensures LogsRead(logs, effect, n + 1) == n + 1
  {
    hide LogTransfers, Readable;
  }

  /** Appending what fits is taking from the whole. */
  lemma TakeShare(before: seq<AssetTransfer>, items: seq<AssetTransfer>, limit: nat)
    requires |before| <= limit
    ensures before + Take(items, limit - |before|) == Take(before + items, limit)
    ensures |before| + |items| <= limit ==> Take(before + items, limit) == before + items
  {
  }

  /** Once the first m logs reach the cap, nothing later is read or taken. */
  lemma StoppedAt(logs: seq<Log>, effect: Effect, m: nat)
    requires AllReadable(logs) && m <= |logs| && LogsRead(logs, effect, m) == m
    requires |AllTransfers(logs, effect, m)| >= MAX_TRANSFERS
    ensures LogsRead(logs, effect, |logs|) == m
    ensures Take(AllTransfers(logs, effect, |logs|), MAX_TRANSFERS)
            == Take(AllTransfers(logs, effect, m), MAX_TRANSFERS)
    ensures |AllTransfers(logs, effect, m)| <= |AllTransfers(logs, effect, |logs|)|
  {
    hide AllTransfers, LogsRead;
    AllTransfersGrow(logs, effect, m, |logs|);
    ReadUpTo(logs, effect, m, |logs|);
  }

  /** The logs the program raises on: an ERC-721 transfer between two readable parties whose fourth
      topic has no digits or is no number. */
  lemma RaisesExactly(log: Log)
    ensures !Readable(log) <==>
              && log.signature == Some(TransferTopic) && log.token.Some? && log.data.Some? && |log.arguments| >= 3
              && TopicAddress(log.arguments[0]).Some? && TopicAddress(log.arguments[1]).Some?
              && (log.arguments[2] == HexTopic([])
                  || (log.arguments[2].BadTopic? && HexNumber(log.arguments[2].text).None?))
  {
    hide FromBig, HexNumber;
  }

  // ----- the cap

  /** A log is read exactly when the logs before it fill less than the cap. */
  lemma {:induction false} ReadWhenBelowCap(logs: seq<Log>, effect: Effect, n: nat, i: nat)
    requires AllReadable(logs) && i < n <= |logs|
    ensures i < LogsRead(logs, effect, n) <==> |AllTransfers(logs, effect, i)| < 20000
  {
    hide AllTransfers, Readable;
    AllTransfersGrow(logs, effect, i, n - 1);
    if i < n - 1 {
      ReadWhenBelowCap(logs, effect, n - 1, i);
    }
  }

  /** The cap is announced exactly when there are more than 20,000 transfers or some log comes after
      the first 20,000. */
  lemma CapAnnouncedExactly(logs: seq<Log>, effect: Effect)
    requires AllReadable(logs)
    ensures CapAnnounced(logs, effect) <==>
              || |AllTransfers(logs, effect, |logs|)| > 20000
              || exists i :: 0 <= i < |logs| && |AllTransfers(logs, effect, i)| >= 20000
  {
    hide AllTransfers, Readable;
    var read := LogsRead(logs, effect, |logs|);
    if read < |logs| {
      ReadWhenBelowCap(logs, effect, |logs|, read);
    }
    if i :| 0 <= i < |logs| && |AllTransfers(logs, effect, i)| >= 20000 {
      ReadWhenBelowCap(logs, effect, |logs|, i);
    }
  }

  // ----- ids and notices

  /** A transfer's id names its log and its place in it. */
  lemma TransferIds(log: nat, index: nat, log': nat, index': nat)
    ensures TransferId(log, index) == "transfer:" + Show(log) + ":" + Show(index)
    ensures TransferId(log, index) == TransferId(log', index') <==> log == log' && index == index'
    ensures EvidenceRef(log) == "log:" + Show(log)
  {
    hide Show;
    if TransferId(log, index) == TransferId(log', index') {
      SplitAfter("transfer:", Show(log), Show(index), Show(log'), Show(index'));
      ShowInjective(log, log');
      ShowInjective(index, index');
    }
  }

  lemma SplitAfter(prefix: string, a: string, s: string, b: string, t: string)
    requires AllDigits(a) && AllDigits(b) && prefix + a + ":" + s == prefix + b + ":" + t
    ensures a == b && s == t
  {
    assert (prefix + a + ":" + s)[|prefix|..] == a + ":" + s;
    assert (prefix + b + ":" + t)[|prefix|..] == b + ":" + t;
    SplitAtColon(a, s, b, t);
  }

  lemma SplitAtColon(a: string, s: string, b: string, t: string)
    requires AllDigits(a) && AllDigits(b) && a + ":" + s == b + ":" + t
    ensures a == b && s == t
  {
    var text := a + ":" + s;
    assert text[|a|] == ':' && text[|b|] == ':';
    assert forall k :: 0 <= k < |a| ==> text[k] == a[k];
    assert forall k :: 0 <= k < |b| ==> text[k] == (b + ":" + t)[k] == b[k];
    assert a == text[..|a|] && b == text[..|b|] && s == text[|a| + 1..] && t == text[|b| + 1..];
  }

  /** The arrays that are read: at an offset of whole words inside the data, of at most 256 numbers, all
      of them present; each number is a word of 32 bytes, in order. */
  lemma ArraysRead(raw: seq<nat>, head: nat)
    ensures var read := DecodeUintArray(raw, head);
            && (head + 32 > |raw| ==> read.None?)
            && (head + 32 <= |raw| ==>
                  var at := FromBig(raw[head..head + 32]);
                  && (at % 32 != 0 || at + 32 > |raw| ==> read.None?)
                  && (at % 32 == 0 && at + 32 <= |raw| ==>
                        var n := FromBig(raw[at..at + 32]);
                        && (read.Some? <==> n <= 256 && at + 32 + 32 * n <= |raw|)
                        && (read.Some? ==>
                              && |read.value| == n
                              && forall i :: 0 <= i < n ==>
                                   read.value[i] == FromBig(raw[at + 32 + 32 * i..at + 64 + 32 * i]))))
  {
    hide FromBig;
    if head + 32 <= |raw| {
      var at := FromBig(raw[head..head + 32]);
      if at % 32 == 0 && at + 32 <= |raw| {
        var n := FromBig(raw[at..at + 32]);
        if n <= 256 && at + 32 + 32 * n <= |raw| {
          WordsInOrder(raw, at + 32, n);
        }
      }
    }
  }

  lemma {:induction false} WordsInOrder(raw: seq<nat>, start: nat, n: nat)
    requires start + 32 * n <= |raw|
    ensures forall i :: 0 <= i < n ==>
              WordsFrom(raw, start, n)[i] == FromBig(raw[start + 32 * i..start + 32 + 32 * i])
  {
    hide FromBig;
    if n > 0 {
      WordsInOrder(raw, start, n - 1);
    }
  }

  /** What a log contributes when it cannot be read: nothing at all without topics, address, data or a
      known first topic, or without two parties; nothing but a notice when an ERC-1155 log names its
      parties and its data do not decode, or decode to two arrays of different lengths. */
  lemma UnreadableLogs(log: Log, effect: Effect)
    requires Readable(log)
    ensures log.signature.None? || log.token.None? || log.data.None? || log.signature == Some(OtherTopic) ==>
              LogTransfers(log, effect) == ([], [])
    ensures log.token.Some? && log.data.Some? && log.signature == Some(TransferTopic)
            && (|log.arguments| < 2 || (|log.arguments| == 2 && |log.data.value| < 32)) ==>
              LogTransfers(log, effect) == ([], [])
    ensures log.token.Some? && log.data.Some? && |log.arguments| >= 3
            && TopicAddress(log.arguments[1]).Some? && TopicAddress(log.arguments[2]).Some? ==>
              && (log.signature == Some(TransferSingleTopic) && |log.data.value| < 64 ==>
                    LogTransfers(log, effect) == ([], [SingleUndecodable(log.index)]))
              && (log.signature == Some(TransferBatchTopic) ==>
                    var (ids, amounts) := (DecodeUintArray(log.data.value, 0), DecodeUintArray(log.data.value, 32));
                    && (ids.None? || amounts.None? ==> LogTransfers(log, effect) == ([], [BatchUndecodable(log.index)]))
                    && (ids.Some? && amounts.Some? && |ids.value| != |amounts.value| ==>
                          LogTransfers(log, effect) == ([], [UnequalLengths(log.index)])))
  {
    hide FromBig, DecodeUintArray, BatchItems;
  }

  // ----- the encodings of the four transfer events

  datatype TokenEvent =
    | Erc20Transfer(token: Address, sender: Address, recipient: Address, amount: nat)
    | Erc721Transfer(token: Address, sender: Address, recipient: Address, tokenId: nat)
    | Erc1155Single(token: Address, operator: Address, sender: Address, recipient: Address, tokenId: nat, amount: nat)
    | Erc1155Batch(token: Address, operator: Address, sender: Address, recipient: Address, tokenIds: seq<nat>,
                   amounts: seq<nat>)

  predicate InRange(words: seq<nat>) {
    forall i :: 0 <= i < |words| ==> words[i] < Range(WORD)
  }

  predicate FitsEvent(e: TokenEvent) {
    && e.sender < Range(20) && e.recipient < Range(20)
    && match e
       case Erc20Transfer(_, _, _, amount) => amount < Range(WORD)
       case Erc721Transfer(_, _, _, tokenId) => tokenId < Range(WORD)
       case Erc1155Single(_, operator, _, _, tokenId, amount) =>
         operator < Range(20) && tokenId < Range(WORD) && amount < Range(WORD)
       case Erc1155Batch(_, operator, _, _, tokenIds, amounts) =>
         operator < Range(20) && |tokenIds| == |amounts| <= MAX_ERC1155_BATCH_ITEMS && InRange(tokenIds)
         && InRange(amounts)
  }

  function AddressTopic(a: Address): Topic {
    HexTopic(ZeroBytes(WORD - 20) + ToBig(a, 20))
  }

  function Elements(words: seq<nat>, n: nat): (s: seq<nat>)
    requires n <= |words|
    ensures |s| == WORD * n
  {
    if n == 0 then [] else Elements(words, n - 1) + ToBig(words[n - 1], WORD)
  }

  /** The tail of a uint256[]: its length and its elements. */
  function ArrayTail(words: seq<nat>): (s: seq<nat>)
    ensures |s| == WORD + WORD * |words|
  {
    ToBig(|words|, WORD) + Elements(words, |words|)
  }

  /** Two uint256[] arguments: both heads, then both tails. */
  function BatchData(tokenIds: seq<nat>, amounts: seq<nat>): seq<nat> {
    (ToBig(2 * WORD, WORD) + ToBig(2 * WORD + |ArrayTail(tokenIds)|, WORD)) + (ArrayTail(tokenIds) + ArrayTail(amounts))
  }

  function EncodeLog(e: TokenEvent, index: nat): Log {
    match e
    case Erc20Transfer(token, sender, recipient, amount) =>
      Log(Some(token), Some(TransferTopic), [AddressTopic(sender), AddressTopic(recipient)], Some(ToBig(amount, WORD)),
          index)
    case Erc721Transfer(token, sender, recipient, tokenId) =>
      Log(Some(token), Some(TransferTopic),
          [AddressTopic(sender), AddressTopic(recipient), HexTopic(ToBig(tokenId, WORD))],
          Some([]), index)
    case Erc1155Single(token, operator, sender, recipient, tokenId, amount) =>
      Log(Some(token), Some(TransferSingleTopic),
          [AddressTopic(operator), AddressTopic(sender), AddressTopic(recipient)],
          Some(ToBig(tokenId, WORD) + ToBig(amount, WORD)), index)
    case Erc1155Batch(token, operator, sender, recipient, tokenIds, amounts) =>
      Log(Some(token), Some(TransferBatchTopic),
          [AddressTopic(operator), AddressTopic(sender), AddressTopic(recipient)],
          Some(BatchData(tokenIds, amounts)), index)
  }

  function BatchMoves(e: TokenEvent, index: nat, n: nat, effect: Effect): (items: seq<AssetTransfer>)
    requires e.Erc1155Batch? && |e.tokenIds| == |e.amounts| && n <= |e.tokenIds|
    ensures |items| == n
  {
    seq(n, k requires 0 <= k < n =>
      AssetTransfer(TransferId(index, k), Erc1155, e.token, e.sender, e.recipient, e.amounts[k], Some(e.tokenIds[k]),
                    Some(e.operator), EvidenceRef(index), effect))
  }

  /** The transfers an event stands for. */
  function EventTransfers(e: TokenEvent, index: nat, effect: Effect): seq<AssetTransfer>
    requires FitsEvent(e)
  {
    match e
    case Erc20Transfer(token, sender, recipient, amount) =>
      [AssetTransfer(TransferId(index, 0), Erc20, token, sender, recipient, amount, None, None, EvidenceRef(index),
                     effect)]
    case Erc721Transfer(token, sender, recipient, tokenId) =>
      [AssetTransfer(TransferId(index, 0), Erc721, token, sender, recipient, 1, Some(tokenId), None,
                     EvidenceRef(index), effect)]
    case Erc1155Single(token, operator, sender, recipient, tokenId, amount) =>
      [AssetTransfer(TransferId(index, 0), Erc1155, token, sender, recipient, amount, Some(tokenId), Some(operator),
                     EvidenceRef(index), effect)]
    case Erc1155Batch(_, _, _, _, tokenIds, _) => BatchMoves(e, index, |tokenIds|, effect)
  }

  lemma AddressRoundTrip(a: Address)
    requires a < Range(20)
    ensures TopicAddress(AddressTopic(a)) == Some(a)
  {
    hide Range, FromBig, ToBig;
    FromToBig(a, 20);
    var bytes := AddressTopic(a).bytes;
    assert bytes[WORD - 20..] == ToBig(a, 20);
  }

  lemma {:induction false} ElementsRoundTrip(raw: seq<nat>, start: nat, words: seq<nat>, n: nat)
    requires InRange(words) && n <= |words| && LiesAt(raw, start, Elements(words, n))
    ensures start + WORD * n <= |raw| && WordsFrom(raw, start, n) == words[..n]
  {
    hide Range, FromBig, ToBig, LiesAt;
    LiesWithin(raw, start, Elements(words, n));
    if n > 0 {
      var init, last := Elements(words, n - 1), ToBig(words[n - 1], WORD);
      assert Elements(words, n) == init + last + [];
      LiesInParts(raw, start, init, last, []);
      ElementsRoundTrip(raw, start, words, n - 1);
      LiesIsWord(raw, start + WORD * (n - 1), last);
      FromToBig(words[n - 1], WORD);
    }
  }

  lemma LiesWithin(raw: seq<nat>, at: nat, part: seq<nat>)
    requires LiesAt(raw, at, part)
    ensures at + |part| <= |raw|
  {
  }

  /** An encoded array is read back exactly when it is not too long. */
  lemma ArrayRoundTrip(raw: seq<nat>, headOffset: nat, at: nat, words: seq<nat>)
    requires LiesAt(raw, headOffset, ToBig(at, WORD)) && LiesAt(raw, at, ArrayTail(words))
    requires Aligned(at) && at < Range(WORD) && |words| < Range(WORD) && InRange(words)
    ensures DecodeUintArray(raw, headOffset) == if |words| <= 256 then Some(words) else None
  {
    hide Range, FromBig, ToBig, LiesAt, Aligned, InRange, WordsFrom, Elements;
    LiesIsWord(raw, headOffset, ToBig(at, WORD));
    FromToBig(at, WORD);
    LiesWithin(raw, at, ArrayTail(words));
    assert ArrayTail(words) == ToBig(|words|, WORD) + Elements(words, |words|) + [];
    LiesInParts(raw, at, ToBig(|words|, WORD), Elements(words, |words|), []);
    LiesIsWord(raw, at, ToBig(|words|, WORD));
    FromToBig(|words|, WORD);
    ElementsRoundTrip(raw, at + WORD, words, |words|);
    assert words[..|words|] == words;
  }

  lemma {:induction false} BatchItemsAre(e: TokenEvent, log: Log, index: nat, n: nat, effect: Effect)
    requires e.Erc1155Batch? && |e.tokenIds| == |e.amounts| && n <= |e.tokenIds|
    requires log.token == Some(e.token) && log.index == index
    ensures BatchItems(log, Some(e.operator), e.sender, e.recipient, e.tokenIds, e.amounts, n, effect)
         == BatchMoves(e, index, n, effect)
  {
    if n > 0 {
      BatchItemsAre(e, log, index, n - 1, effect);
      assert BatchMoves(e, index, n, effect)[..n - 1] == BatchMoves(e, index, n - 1, effect);
    }
  }

  lemma SmallNumbers()
    ensures MAX_ERC1155_BATCH_ITEMS < Range(WORD) && 2 * WORD + WORD + WORD * MAX_ERC1155_BATCH_ITEMS < Range(WORD)
  {
    assert Range(WORD) == 256 * Range(WORD - 1) && Range(WORD - 1) == 256 * Range(WORD - 2);
  }

  lemma BatchDataParts(tokenIds: seq<nat>, amounts: seq<nat>)
    ensures var raw, first, second := BatchData(tokenIds, amounts), ArrayTail(tokenIds), ArrayTail(amounts);
            && LiesAt(raw, 0, ToBig(2 * WORD, WORD)) && LiesAt(raw, WORD, ToBig(2 * WORD + |first|, WORD))
            && LiesAt(raw, 2 * WORD, first) && LiesAt(raw, 2 * WORD + |first|, second)
            && Aligned(2 * WORD) && Aligned(2 * WORD + |first|)
  {
    hide ToBig, ArrayTail;
    var first, second := ArrayTail(tokenIds), ArrayTail(amounts);
    var h1, h2 := ToBig(2 * WORD, WORD), ToBig(2 * WORD + |first|, WORD);
    assert (h1 + h2)[0..WORD] == h1 && (h1 + h2)[WORD..2 * WORD] == h2;
    assert (first + second)[0..|first|] == first && (first + second)[|first|..|first| + |second|] == second;
    InWhole(h1 + h2, first + second, 0, h1, 0, first);
    InWhole(h1 + h2, first + second, WORD, h2, |first|, second);
    WholeWords(2);
    WholeWords(3 + |tokenIds|);
  }

  lemma BatchRoundTrip(e: TokenEvent, index: nat, effect: Effect)
    requires e.Erc1155Batch? && FitsEvent(e)
    ensures BatchTransfers(EncodeLog(e, index), effect) == (EventTransfers(e, index, effect), [])
  {
    hide Range, ToBig, LiesAt, Aligned, DecodeUintArray, BatchData, ArrayTail, TopicAddress, AddressTopic, InRange,
         BatchItems;
    AddressRoundTrip(e.operator);
    AddressRoundTrip(e.sender);
    AddressRoundTrip(e.recipient);
    SmallNumbers();
    BatchDataParts(e.tokenIds, e.amounts);
    var raw := BatchData(e.tokenIds, e.amounts);
    ArrayRoundTrip(raw, 0, 2 * WORD, e.tokenIds);
    ArrayRoundTrip(raw, WORD, 2 * WORD + |ArrayTail(e.tokenIds)|, e.amounts);
    BatchItemsAre(e, EncodeLog(e, index), index, |e.tokenIds|, effect);
  }

  lemma SingleRoundTrip(e: TokenEvent, index: nat, effect: Effect)
    requires e.Erc1155Single? && FitsEvent(e)
    ensures SingleTransfers(EncodeLog(e, index), effect) == (EventTransfers(e, index, effect), [])
  {
    hide Range, ToBig, FromBig, TopicAddress, AddressTopic;
    AddressRoundTrip(e.operator);
    AddressRoundTrip(e.sender);
    AddressRoundTrip(e.recipient);
    FromToBig(e.tokenId, WORD);
    FromToBig(e.amount, WORD);
    var raw := ToBig(e.tokenId, WORD) + ToBig(e.amount, WORD);
    assert WordAt(raw, 0) == ToBig(e.tokenId, WORD) && WordAt(raw, WORD) == ToBig(e.amount, WORD);
  }

  lemma TransferRoundTrip(e: TokenEvent, index: nat, effect: Effect)
    requires (e.Erc20Transfer? || e.Erc721Transfer?) && FitsEvent(e)
    ensures TransferTransfers(EncodeLog(e, index), effect) == EventTransfers(e, index, effect)
  {
    hide Range, ToBig, FromBig, TopicAddress, AddressTopic;
    AddressRoundTrip(e.sender);
    AddressRoundTrip(e.recipient);
    if e.Erc20Transfer? {
      FromToBig(e.amount, WORD);
      assert WordAt(ToBig(e.amount, WORD), 0) == ToBig(e.amount, WORD);
    } else {
      FromToBig(e.tokenId, WORD);
    }
  }

  /** Reading the log of a token event returns the transfers it stands for, and no notice. */
  lemma LogRoundTrip(e: TokenEvent, index: nat, effect: Effect)
    requires FitsEvent(e)
    ensures LogTransfers(EncodeLog(e, index), effect) == (EventTransfers(e, index, effect), [])
  {
    hide TransferTransfers, SingleTransfers, BatchTransfers, EventTransfers;
    if e.Erc1155Batch? {
      BatchRoundTrip(e, index, effect);
    } else if e.Erc1155Single? {
      SingleRoundTrip(e, index, effect);
    } else {
      TransferRoundTrip(e, index, effect);
    }
  }

  /** The receipt of a list of token events. */
  function Receipt(events: seq<TokenEvent>): (logs: seq<Log>)
    ensures |logs| == |events| && AllReadable(logs)
  {
    seq(|events|, i requires 0 <= i < |events| => EncodeLog(events[i], i))
  }

  ghost predicate AllFitEvents(events: seq<TokenEvent>) {
    forall i :: 0 <= i < |events| ==> FitsEvent(events[i])
  }

  function AllEventTransfers(events: seq<TokenEvent>, effect: Effect, n: nat): seq<AssetTransfer>
    requires AllFitEvents(events) && n <= |events|
  {
    if n == 0 then [] else AllEventTransfers(events, effect, n - 1) + EventTransfers(events[n - 1], n - 1, effect)
  }

  /** A whole receipt reads back as its events' transfers, in order; with the cap, as the first
      20,000 of them. */
  lemma {:induction false} ReceiptRoundTrip(events: seq<TokenEvent>, effect: Effect, n: nat)
    requires AllFitEvents(events) && n <= |events|
    ensures AllTransfers(Receipt(events), effect, n) == AllEventTransfers(events, effect, n)
    ensures AllNotices(Receipt(events), effect, n) == []
  {
    hide LogTransfers, EncodeLog, EventTransfers, FitsEvent, Readable;
    if n > 0 {
      ReceiptRoundTrip(events, effect, n - 1);
      assert Receipt(events)[n - 1] == EncodeLog(events[n - 1], n - 1);
      LogRoundTrip(events[n - 1], n - 1, effect);
    }
  }
}
