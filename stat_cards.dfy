/** The contest page's stat cards: five column totals and one column
    average, each rounded and given a suffix, and a participation rate
    spliced in as the fifth of seven cards. */
module StatCards {
  import opened Wrappers
  import opened Seqs
  import opened Cells
  import opened Text

  /** One entry of the `fields` table. */
  datatype Field = Field(name: string, key: string, suffix: string, isAverage: bool)

  const Fields: seq<Field> := [
    Field("Total Registration", "Total_Registrations", "K", false),
    Field("User Count", "User_Count", "K", false),
    Field("Engagement Rate", "Engagement_Rate (%)", "%", false),
    Field("Bounce Rate", "Bounce_Rate (%)", "%", false),
    Field("Contest Revenue", "Contest_Revenue (INR)", "K", false),
    Field("Buyer Percentage", "Buyers_Percentage (%)", "%", true)
  ]

  /** A JavaScript number as a quotient can produce it. */
  datatype JsNumber = NaN | Infinity(negative: bool) | Finite(x: real)

  /** JavaScript division of two numbers that may be NaN. */
  function Divide(a: Option<real>, b: Option<real>): (q: JsNumber)
    ensures q.Finite? <==> a.Some? && b.Some? && b.value != 0.0
    ensures q.Finite? ==> q.x * b.value == a.value
    ensures q.NaN? <==> a.None? || b.None? || (a.value == 0.0 && b.value == 0.0)
    ensures q.Infinity? ==> q.negative == (a.value < 0.0)
  {
    if a.None? || b.None? then NaN
    else if b.value != 0.0 then Finite(a.value / b.value)
    else if a.value == 0.0 then NaN
    else Infinity(a.value < 0.0)
  }

  /** `q * 100`. */
  function Percent(q: JsNumber): (r: JsNumber)
    ensures r.Finite? <==> q.Finite?
    ensures r.Finite? ==> r.x == q.x * 100.0
    ensures r.NaN? <==> q.NaN?
  {
    match q
    case Finite(x) => Finite(x * 100.0)
    case _ => q
  }

  /** The value a field's card shows before rounding: the column's
      `parseFloat(x || 0)` sum, divided by the number of rows for the
      average field. */
  function FieldValue(data: seq<Row>, f: Field): (v: Option<real>)
    ensures !f.isAverage ==> v == FieldTotal(data, f.key)
    ensures f.isAverage ==> (v.Some? <==> |data| > 0 && FieldTotal(data, f.key).Some?)
    ensures f.isAverage && v.Some? ==> v.value == Mean(FieldValues(data, f.key))
  {
    var total := FieldTotal(data, f.key);
    if !f.isAverage then total
    else match Divide(total, Some(|data| as real))
      case Finite(x) => Some(x)
      case _ => None
  }

  /** `${Math.round(value)}` followed by the suffix. */
  function CardText(v: Option<real>, suffix: string): (t: string)
    ensures |t| >= |suffix| && t[|t| - |suffix|..] == suffix
  {
    var rounded := RoundNaN(v);
    (if rounded.Some? then IntText(rounded.value) else "NaN") + suffix
  }

  /** A card's text gives back the rounded value: reading the part before
      the suffix with `parseInt` yields `Math.round(value)`, or NaN. */
  lemma CardTextReads(v: Option<real>, suffix: string)
    ensures var t := CardText(v, suffix);
      ParseIntText(t[..|t| - |suffix|]) == RoundNaN(v)
  {
    var rounded := RoundNaN(v);
    var t := CardText(v, suffix);
    if rounded.Some? {
      assert t[..|t| - |suffix|] == IntText(rounded.value);
      IntTextParses(rounded.value);
    } else {
      assert t[..|t| - |suffix|] == "NaN";
      assert DigitRun("NaN") == 0;
    }
  }

  /** What a card shows: the text of a formatted field, or the participation
      rate that the card writes with two decimals and a `%` sign. */
  datatype CardValue = Rounded(text: string) | Percentage(rate: JsNumber)

  datatype Card = Card(name: string, value: CardValue)

  /** `fields.map(...)`: one card per field. */
  function FieldCards(data: seq<Row>): (cards: seq<Card>)
    ensures |cards| == |Fields|
    ensures forall i :: 0 <= i < |Fields| ==>
      cards[i] == Card(Fields[i].name, Rounded(CardText(FieldValue(data, Fields[i]), Fields[i].suffix)))
  {
    seq(|Fields|, i requires 0 <= i < |Fields| =>
      Card(Fields[i].name, Rounded(CardText(FieldValue(data, Fields[i]), Fields[i].suffix))))
  }

  /** `(userCount / totalRegistrations) * 100`, before `toFixed(2)`. */
  function ParticipationRate(data: seq<Row>): JsNumber {
    Percent(Divide(FieldTotal(data, "User_Count"), FieldTotal(data, "Total_Registrations")))
  }

  /** When both columns read, registrations are positive and users do not
      exceed them, the rate is a percentage between 0 and 100. */
  lemma ParticipationBounds(data: seq<Row>)
    requires FieldTotal(data, "User_Count").Some? && FieldTotal(data, "Total_Registrations").Some?
    requires 0.0 <= FieldTotal(data, "User_Count").value <= FieldTotal(data, "Total_Registrations").value
    requires FieldTotal(data, "Total_Registrations").value > 0.0
    ensures ParticipationRate(data).Finite?
    ensures 0.0 <= ParticipationRate(data).x <= 100.0
  {
    var u := FieldTotal(data, "User_Count").value;
    var t := FieldTotal(data, "Total_Registrations").value;
    var q := Divide(Some(u), Some(t)).x;
    assert q * t == u;
    NonnegativeFactor(q, t);
    assert (1.0 - q) * t == t - u;
    NonnegativeFactor(1.0 - q, t);
  }

  /** A product with a positive factor is nonnegative only when the other
      factor is. */
  lemma NonnegativeFactor(a: real, t: real)
    requires t > 0.0
    ensures a * t >= 0.0 ==> a >= 0.0
  {
    if a < 0.0 {
      assert a * t < 0.0;
    }
  }

  /** With no registrations the rate is NaN when there are no users
      either, and an infinity otherwise. */
  lemma ParticipationWithoutRegistrations(data: seq<Row>)
    requires FieldTotal(data, "Total_Registrations") == Some(0.0)
    requires FieldTotal(data, "User_Count").Some?
    ensures ParticipationRate(data).NaN? <==> FieldTotal(data, "User_Count").value == 0.0
    ensures !ParticipationRate(data).Finite?
  {
  }

  /** `totals.splice(4, 0, participation)`. */
  function Totals(data: seq<Row>): (cards: seq<Card>)
    ensures |cards| == 7
    ensures cards[4] == Card("Participation Rate", Percentage(ParticipationRate(data)))
    ensures forall i :: 0 <= i < 4 ==> cards[i] == FieldCards(data)[i]
    ensures forall i :: 4 < i < 7 ==> cards[i] == FieldCards(data)[i - 1]
  {
    var f := FieldCards(data);
    f[..4] + [Card("Participation Rate", Percentage(ParticipationRate(data)))] + f[4..]
  }

  /** The first row of cards. */
  function FirstRow(data: seq<Row>): seq<Card> {
    Totals(data)[..4]
  }

  /** The second row of cards. */
  function SecondRow(data: seq<Row>): seq<Card> {
    Totals(data)[4..]
  }

  /** Four cards on the first row, three on the second, the participation
      rate heading the second, and the labels in the order of the table. */
  lemma CardLayout(data: seq<Row>)
    ensures |FirstRow(data)| == 4 && |SecondRow(data)| == 3
    ensures FirstRow(data) + SecondRow(data) == Totals(data)
    ensures SecondRow(data)[0].name == "Participation Rate"
    ensures [Totals(data)[0].name, Totals(data)[1].name, Totals(data)[2].name, Totals(data)[3].name,
             Totals(data)[5].name, Totals(data)[6].name]
         == ["Total Registration", "User Count", "Engagement Rate", "Bounce Rate",
             "Contest Revenue", "Buyer Percentage"]
  {
    assert Totals(data)[..4] + Totals(data)[4..] == Totals(data);
  }

  /** The buyer percentage is an average: when every row's value lies in a
      range, say 0 to 100, so does the value on the card. */
  lemma AverageBounds(data: seq<Row>, lo: real, hi: real)
    requires |data| > 0
    requires forall i :: 0 <= i < |data| ==> !Unreadable(Get(data[i], "Buyers_Percentage (%)"))
    requires forall i :: 0 <= i < |data| ==> lo <= FieldValues(data, "Buyers_Percentage (%)")[i] <= hi
    ensures FieldValue(data, Fields[5]).Some?
    ensures lo <= FieldValue(data, Fields[5]).value <= hi
  {
    MeanBounds(FieldValues(data, "Buyers_Percentage (%)"), lo, hi);
  }

  /** Without rows every sum card reads `0`, and the average and the
      participation rate are NaN. */
  lemma EmptyCards(data: seq<Row>)
    requires data == []
    ensures Totals(data)[0].value == Rounded("0K")
    ensures Totals(data)[6].value == Rounded("NaN%")
    ensures Totals(data)[4].value == Percentage(NaN)
  {
    assert FieldTotal(data, "Total_Registrations") == Some(0.0);
    assert IntText(0) == "0";
  }
}
