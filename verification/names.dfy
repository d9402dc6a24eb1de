/** Which names are valid for metrics and labels. */
module Names {

  datatype MetricType = Counter | Gauge | Summary | Untyped | Histogram | Info

  predicate IsDigit(c: char) {
    '0' <= c <= '9'
  }

  predicate IsAlphaNumeric(c: char) {
    IsDigit(c) || 'a' <= c <= 'z' || 'A' <= c <= 'Z'
  }

  predicate MetricChar(c: char) {
    IsAlphaNumeric(c) || c == '_' || c == ':'
  }

  predicate LabelChar(c: char) {
    IsAlphaNumeric(c) || c == '_'
  }

  /** Not empty, no leading digit, and not reserved by a leading double underscore. */
  predicate StartsValid(name: string) {
    name != "" && !IsDigit(name[0]) && !("__" <= name)
  }

  predicate CheckMetricName(name: string) {
    StartsValid(name) && forall i :: 0 <= i < |name| ==> MetricChar(name[i])
  }

  predicate CheckLabelName(name: string, metricType: MetricType) {
    && StartsValid(name)
    && !(metricType == Histogram && name == "le")
    && !(metricType == Summary && name == "quantile")
    && forall i :: 0 <= i < |name| ==> LabelChar(name[i])
  }

  // ----- the names by the codes of their characters

  /** A letter or an underscore, in ASCII. */
  predicate IsInitial(code: int) {
    0x41 <= code <= 0x5A || 0x61 <= code <= 0x7A || code == 0x5F
  }

  predicate IsDigitCode(code: int) {
    0x30 <= code <= 0x39
  }

  const COLON := 0x3A

  /** The metric names of the data model, [a-zA-Z_:][a-zA-Z0-9_:]*, but those that start with two underscores. */
  lemma {:induction false} MetricNameExactly(name: string)
    ensures CheckMetricName(name)
            <==> && 1 <= |name| && (IsInitial(name[0] as int) || name[0] as int == COLON)
                 && (forall i :: 1 <= i < |name| ==>
                       IsInitial(name[i] as int) || name[i] as int == COLON || IsDigitCode(name[i] as int))
                 && !(2 <= |name| && name[0] as int == name[1] as int == 0x5F)
  {
    ReservedStart(name);
  }

  /** The label names, [a-zA-Z_][a-zA-Z0-9_]*, but for those, and the ones that a type reserves. */
  lemma {:induction false} LabelNameExactly(name: string, metricType: MetricType)
    ensures CheckLabelName(name, metricType)
            <==> && 1 <= |name| && IsInitial(name[0] as int)
                 && (forall i :: 1 <= i < |name| ==> IsInitial(name[i] as int) || IsDigitCode(name[i] as int))
                 && !(2 <= |name| && name[0] as int == name[1] as int == 0x5F)
                 && !(metricType.Histogram? && name == "le") && !(metricType.Summary? && name == "quantile")
  {
    ReservedStart(name);
  }

  lemma {:induction false} ReservedStart(name: string)
    ensures "__" <= name <==> 2 <= |name| && name[0] as int == name[1] as int == 0x5F
  {
    if 2 <= |name| && name[0] as int == name[1] as int == 0x5F {
      assert name[0] == '_' && name[1] == '_';
      assert name[..2] == "__";
    }
  }
}
