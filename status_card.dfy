/** The dashboard status card: icon colours and the trend line with its colour inverted for negative metrics. */
module StatusCard {
  import opened Wrappers

  /** The `icon` prop; `Other` is any value that reaches the `default` branch. */
  datatype Icon = Total | Present | Absent | Late | Other

  datatype TrendDirection = Up | Down

  /** Absence and lateness are metrics where a rise is bad news. */
  predicate IsNegativeMetric(icon: Icon) {
    icon == Absent || icon == Late
  }

  /** A trend string is shown only when it is defined and non-empty. */
  predicate TrendShown(trend: Option<string>) {
    trend.Some? && trend.value != ""
  }

  /** `getIconColor`. */
  function IconColor(icon: Icon): (c: string)
    ensures icon == Total ==> c == "text-blue-600 bg-blue-100"
    ensures icon == Present ==> c == "text-green-600 bg-green-100"
    ensures icon == Absent ==> c == "text-red-600 bg-red-100"
    ensures icon == Late ==> c == "text-amber-600 bg-amber-100"
    ensures icon == Other ==> c == "text-gray-600 bg-gray-100"
  {
    match icon
    case Total => "text-blue-600 bg-blue-100"
    case Present => "text-green-600 bg-green-100"
    case Absent => "text-red-600 bg-red-100"
    case Late => "text-amber-600 bg-amber-100"
    case Other => "text-gray-600 bg-gray-100"
  }

  /** `getTrendColor`: no colour without a trend; otherwise green for good news and red for bad. */
  function TrendColor(icon: Icon, trend: Option<string>, direction: Option<TrendDirection>): (c: string)
    ensures !TrendShown(trend) ==> c == ""
    ensures TrendShown(trend) ==> c in {"text-red-600", "text-green-600"}
    ensures TrendShown(trend) ==> (c == "text-green-600" <==> (direction == Some(Up) <==> !IsNegativeMetric(icon)))
  {
    if !TrendShown(trend) then ""
    else if icon == Absent || icon == Late then
      (if direction == Some(Up) then "text-red-600" else "text-green-600")
    else
      (if direction == Some(Up) then "text-green-600" else "text-red-600")
  }

  /** For the same trend, a negative metric gets the opposite colour of a positive one. */
  lemma NegativeMetricInvertsColour(neg: Icon, pos: Icon, trend: Option<string>, direction: Option<TrendDirection>)
    requires IsNegativeMetric(neg) && !IsNegativeMetric(pos) && TrendShown(trend)
    ensures TrendColor(neg, trend, direction) != TrendColor(pos, trend, direction)
    ensures {TrendColor(neg, trend, direction), TrendColor(pos, trend, direction)} == {"text-red-600", "text-green-600"}
  {
  }

  /** The arrow in front of the trend. */
  function Arrow(direction: Option<TrendDirection>): (a: string)
    ensures a == "↑" <==> direction == Some(Up)
    ensures a != "↑" ==> a == "↓"
  {
    if direction == Some(Up) then "↑" else "↓"
  }

  /** The trend line: absent without a trend, else the arrow, a space and the trend, in the trend colour. */
  datatype TrendLine = TrendLine(colour: string, text: string)

  function TrendLineFor(icon: Icon, trend: Option<string>, direction: Option<TrendDirection>): (l: Option<TrendLine>)
    ensures l.Some? <==> TrendShown(trend)
    ensures l.Some? ==> l.value.text == Arrow(direction) + " " + trend.value
    ensures l.Some? ==> l.value.colour != ""
  {
    if TrendShown(trend) then Some(TrendLine(TrendColor(icon, trend, direction), Arrow(direction) + " " + trend.value))
    else None
  }
}
