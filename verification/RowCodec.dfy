/**
 The row form of a watched domain: thresholds and channels are comma-joined text columns. Decoding an
 encoded domain gives it back exactly when no channel id holds a comma and the name ends in no newline.
 */
module RowCodec {
  import opened Common
  import opened Monitoring
  import opened Text
  import Names

  datatype Row = Row(
    name: string,
    cron: string,
    checkerId: string,
    thresholds: string,
    channels: string,
    metadata: map<string, string>,
    lastAt: Option<Instant>,
    lastOutcome: Option<string>,
    lastExpires: Option<Instant>
  )

  datatype DecodeError = BadThreshold | BadChannel | BadOutcome | BadLastCheck | BadName | BadCron | BadDomain

  function OutcomeText(o: CheckOutcome): string {
    match o
    case OK => "ok"
    case TransientError => "transient_error"
    case PermanentError => "permanent_error"
  }

  function OutcomeOf(s: string): Option<CheckOutcome> {
    if s == "ok" then Some(OK)
    else if s == "transient_error" then Some(TransientError)
    else if s == "permanent_error" then Some(PermanentError)
    else None
  }

  /** What the constructors of the domain's parts have established; a newline may still end the name. */
  predicate Constructed(d: MonitoredDomain) {
    && d.Valid()
    && IsSchedule(d.cron)
    && d.name != [] && Names.Checked(d.name).Ok?
    && (forall i :: 0 <= i < |d.channels| ==> d.channels[i] != [] && Strip(d.channels[i]) == d.channels[i])
  }

  // ------------------------------------------------------------------ encoding

  function Decimals(ns: seq<nat>): (r: seq<string>)
    ensures |r| == |ns| && forall i :: 0 <= i < |ns| ==> r[i] == Decimal(ns[i])
  {
    seq(|ns|, i requires 0 <= i < |ns| => Decimal(ns[i]))
  }

  function Encode(d: MonitoredDomain): Row {
    var last := d.lastCheck;
    Row(d.name, d.cron, d.checkerId, Join(Decimals(d.thresholds), ','), Join(d.channels, ','), d.metadata,
        if last.Some? then Some(last.value.at) else None,
        if last.Some? then Some(OutcomeText(last.value.outcome)) else None,
        if last.Some? then last.value.expiresAt else None)
  }

  // ------------------------------------------------------------------ decoding

  /** The parts of a column that are not empty. */
  function NonEmpty(parts: seq<string>): seq<string> {
    if parts == [] then []
    else if parts[0] == [] then NonEmpty(parts[1..])
    else [parts[0]] + NonEmpty(parts[1..])
  }

  /** A threshold is what `int` makes of its part; a negative duration is refused. */
  function DecodeThresholds(parts: seq<string>): Option<seq<nat>> {
    if parts == [] then Some([])
    else
      var n, rest := IntOf(parts[0]), DecodeThresholds(parts[1..]);
      if n.None? || n.value < 0 || rest.None? then None else Some([n.value as nat] + rest.value)
  }

  function DecodeChannels(parts: seq<string>): Option<seq<string>> {
    if parts == [] then Some([])
    else if Strip(parts[0]) == [] then None
    else
      var rest := DecodeChannels(parts[1..]);
      if rest.None? then None else Some([Strip(parts[0])] + rest.value)
  }

  /** No last check, or one whose outcome and expiry agree; a missing outcome text counts as "ok". */
  function DecodeLast(row: Row): Result<Option<LastCheck>, DecodeError> {
    if row.lastAt.None? then Ok(None)
    else
      var text := if row.lastOutcome.None? || row.lastOutcome.value == [] then "ok" else row.lastOutcome.value;
      match OutcomeOf(text)
      case None => Err(BadOutcome)
      case Some(outcome) =>
        var last := LastCheck(row.lastAt.value, outcome, row.lastExpires);
        if last.Valid() then Ok(Some(last)) else Err(BadLastCheck)
  }

  function Decode(row: Row, idna: string -> Option<string>): Result<MonitoredDomain, DecodeError> {
    var thresholds := DecodeThresholds(NonEmpty(Split(row.thresholds, ',')));
    var channels := DecodeChannels(NonEmpty(Split(row.channels, ',')));
    var last := DecodeLast(row);
    var name := Names.Normalise(row.name, idna);
    if thresholds.None? then Err(BadThreshold)
    else if channels.None? then Err(BadChannel)
    else if last.Err? then Err(last.error)
    else if name.Err? then Err(BadName)
    else if !IsSchedule(row.cron) then Err(BadCron)
    else
      var d := MonitoredDomain(name.value, row.cron, row.checkerId, thresholds.value, channels.value, last.value,
          row.metadata);
      if d.Valid() then Ok(d) else Err(BadDomain)
  }

  // ------------------------------------------------------------------- lemmas

  lemma {:induction false} NothingEmpty(parts: seq<string>)
    requires forall p :: p in parts ==> p != []
    ensures NonEmpty(parts) == parts
  {
    if parts != [] {
      assert forall p :: p in parts[1..] ==> p in parts;
      assert parts[0] in parts;
      NothingEmpty(parts[1..]);
      assert parts == [parts[0]] + parts[1..];
    }
  }

  lemma OneThresholdMore(part: string, rest: seq<string>, n: nat, ns: seq<nat>)
    requires IntOf(part) == Some(n) && DecodeThresholds(rest) == Some(ns)
    ensures DecodeThresholds([part] + rest) == Some([n] + ns)
  {
    var parts := [part] + rest;
    assert parts[0] == part && parts[1..] == rest;
    assert DecodeThresholds(parts[1..]) == Some(ns);
  }

  lemma {:induction false} ThresholdsBack(ns: seq<nat>)
    ensures DecodeThresholds(Decimals(ns)) == Some(ns)
  {
    if ns == [] {
      assert Decimals(ns) == [];
    } else {
      ThresholdsBack(ns[1..]);
      DecimalIsInt(ns[0]);
      OneThresholdMore(Decimal(ns[0]), Decimals(ns[1..]), ns[0], ns[1..]);
      assert Decimals(ns) == [Decimal(ns[0])] + Decimals(ns[1..]);
      assert ns == [ns[0]] + ns[1..];
    }
  }

  lemma OneChannelMore(part: string, rest: seq<string>, channels: seq<string>)
    requires part != [] && Strip(part) == part && DecodeChannels(rest) == Some(channels)
    ensures DecodeChannels([part] + rest) == Some([part] + channels)
  {
    var parts := [part] + rest;
    assert parts[0] == part && parts[1..] == rest;
    assert DecodeChannels(parts[1..]) == Some(channels);
  }

  lemma {:induction false} ChannelsBack(cs: seq<string>)
    requires forall i :: 0 <= i < |cs| ==> cs[i] != [] && Strip(cs[i]) == cs[i]
    ensures DecodeChannels(cs) == Some(cs)
  {
    if cs != [] {
      ChannelsBack(cs[1..]);
      OneChannelMore(cs[0], cs[1..], cs[1..]);
      assert cs == [cs[0]] + cs[1..];
    }
  }

  lemma ThresholdColumn(ns: seq<nat>)
    requires ns != []
    ensures DecodeThresholds(NonEmpty(Split(Join(Decimals(ns), ','), ','))) == Some(ns)
  {
    forall p | p in Decimals(ns)
      ensures p != [] && ',' !in p
    {
      var i :| 0 <= i < |ns| && p == Decimal(ns[i]);
    }
    SplitJoin(Decimals(ns), ',');
    NothingEmpty(Decimals(ns));
    ThresholdsBack(ns);
  }

  lemma ChannelColumn(cs: seq<string>)
    requires cs != []
    requires forall i :: 0 <= i < |cs| ==> cs[i] != [] && Strip(cs[i]) == cs[i]
    requires forall c :: c in cs ==> ',' !in c
    ensures DecodeChannels(NonEmpty(Split(Join(cs, ','), ','))) == Some(cs)
  {
    SplitJoin(cs, ',');
    NothingEmpty(cs);
    ChannelsBack(cs);
  }

  lemma StripStaysInside(s: string, c: char)
    requires c !in s
    ensures c !in Strip(s)
  {
    var l := StripLeft(s);
    assert forall x :: x in l ==> x in s;
    assert forall x :: x in Strip(s) ==> x in l;
  }

  /** Whatever the channel column holds, decoded channels hold no comma. */
  lemma {:induction false} DecodedChannelsHaveNoComma(parts: seq<string>)
    requires forall p :: p in parts ==> ',' !in p
    ensures var r := DecodeChannels(NonEmpty(parts)); r.Some? ==> forall c :: c in r.value ==> ',' !in c
  {
    if parts != [] {
      DecodedChannelsHaveNoComma(parts[1..]);
      StripStaysInside(parts[0], ',');
    }
  }

  lemma LastCheckBack(d: MonitoredDomain)
    requires d.Valid()
    ensures DecodeLast(Encode(d)) == Ok(d.lastCheck)
  {
  }

  /** No channel id holds a comma, and the name does not end in a newline. */
  predicate Clean(d: MonitoredDomain)
    requires d.name != []
  {
    d.name[|d.name| - 1] != '\n' && forall c :: c in d.channels ==> ',' !in c
  }

  predicate ComesBack(d: MonitoredDomain, idna: string -> Option<string>) {
    Decode(Encode(d), idna) == Ok(d)
  }

  /** A row decodes to the domain that its columns decode to. */
  lemma Assembles(row: Row, d: MonitoredDomain, idna: string -> Option<string>)
    requires d.Valid() && IsSchedule(d.cron)
    requires DecodeThresholds(NonEmpty(Split(row.thresholds, ','))) == Some(d.thresholds)
    requires DecodeChannels(NonEmpty(Split(row.channels, ','))) == Some(d.channels)
    requires DecodeLast(row) == Ok(d.lastCheck) && Names.Normalise(row.name, idna) == Ok(d.name)
    requires row.cron == d.cron && row.checkerId == d.checkerId && row.metadata == d.metadata
    ensures Decode(row, idna) == Ok(d)
  {
  }

  lemma CleanDomainComesBack(d: MonitoredDomain, idna: string -> Option<string>)
    requires Constructed(d) && Clean(d)
    ensures ComesBack(d, idna)
  {
    ThresholdColumn(d.thresholds);
    ChannelColumn(d.channels);
    LastCheckBack(d);
    Names.CleanNameIsNormal(d.name, idna);
    Assembles(Encode(d), d, idna);
  }

  lemma DecodedToItself(row: Row, d: MonitoredDomain, idna: string -> Option<string>)
    requires d.name != [] && Names.Checked(d.name).Ok?
    requires Decode(row, idna) == Ok(d) && row.name == d.name
    ensures Clean(d)
  {
    DecodedIsClean(row, idna);
    Names.NormalFormIff(d.name, idna);
  }

  /**
   The row encoding loses nothing exactly for domains whose channel ids are free of commas and whose
   name does not end in a newline.
   */
  lemma DecodeEncodeIff(d: MonitoredDomain, idna: string -> Option<string>)
    requires Constructed(d)
    ensures ComesBack(d, idna) <==> Clean(d)
  {
    if Clean(d) {
      CleanDomainComesBack(d, idna);
    } else if ComesBack(d, idna) {
      DecodedToItself(Encode(d), d, idna);
    }
  }

  /** Decoding never produces a comma in a channel id, and its name is a normalised one. */
  lemma DecodedIsClean(row: Row, idna: string -> Option<string>)
    requires Decode(row, idna).Ok?
    ensures forall c :: c in Decode(row, idna).value.channels ==> ',' !in c
    ensures Names.Normalise(row.name, idna) == Ok(Decode(row, idna).value.name)
  {
    DecodedChannelsHaveNoComma(Split(row.channels, ','));
  }

  /** The columns of a row, on an example. */
  lemma ColumnsOf(at: Instant, expires: Instant)
    ensures var d := MonitoredDomain("a.com", "0 9 * * *", "rdap", [60, 5], ["ops", "mail"],
                                     Some(LastCheck(at, OK, Some(expires))), map["k" := "v"]);
            Encode(d) == Row("a.com", "0 9 * * *", "rdap", "60,5", "ops,mail", map["k" := "v"],
                             Some(at), Some("ok"), Some(expires))
    ensures OutcomeText(TransientError) == "transient_error" && OutcomeText(PermanentError) == "permanent_error"
  {
    assert Decimal(60) == Decimal(6) + [DigitChar(0)] == "60" && Decimal(5) == "5";
    assert Decimals([60, 5]) == ["60", "5"];
    assert ["60", "5"][1..] == ["5"] && ["ops", "mail"][1..] == ["mail"];
    assert "60" + "," + "5" == "60,5" && "ops" + "," + "mail" == "ops,mail";
  }
}
