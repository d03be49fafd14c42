/**
 * The two WPF value converters of PingerTool/Converters: EmptyListConverter, which turns an
 * element count into the visibility of the "no elements" placeholder, and
 * CollectionToTextConverter, which turns a target's display lines into one text block.
 * A bound value is modelled by the runtime type the converters test for; an exception is a
 * Throws result naming its type.
 */
module Converters {
  import opened Wrappers
  import opened Strings

  /** The object a binding hands to a converter, by the runtime type the converters test. */
  datatype BoundValue =
    | Null
    | IntValue(n: int)
    | StringCollection(lines: seq<string>)
    | OtherObject

  /** The target type of a conversion. */
  datatype TargetType = VisibilityType | OtherType

  /** System.Windows.Visibility (the converter never yields Hidden). */
  datatype Visibility = Visible | Hidden | Collapsed

  /** The exceptions the converters can throw. */
  datatype ExceptionKind = NullReference | Argument | IndexOutOfRange | NotImplemented

  /** A converter's return value or the exception it throws. */
  datatype Result<T> = Ok(value: T) | Throws(kind: ExceptionKind)

  /**
   * EmptyListConverter.Convert: a null value throws on GetType(); anything but an int, or a
   * target other than Visibility, throws ArgumentException; a count of at least 1 hides the
   * placeholder (Collapsed), and any other count shows it.
   */
  function EmptyListConvert(value: BoundValue, targetType: TargetType): (r: Result<Visibility>)
    ensures value.Null? ==> r == Throws(NullReference)
    ensures !value.Null? ==> (r.Ok? <==> value.IntValue? && targetType == VisibilityType)
    ensures r.Throws? && !value.Null? ==> r.kind == Argument
    ensures r.Ok? ==> (r.value == Collapsed <==> value.n >= 1) && r.value != Hidden
  {
    if value.Null? then Throws(NullReference)
    else if !value.IntValue? || targetType != VisibilityType then Throws(Argument)
    else if value.n >= 1 then Ok(Collapsed)
    else Ok(Visible)
  }

  /** EmptyListConverter.ConvertBack: a one-way converter. */
  function EmptyListConvertBack(value: BoundValue, targetType: TargetType): (r: Result<BoundValue>)
    ensures r == Throws(NotImplemented)
  {
    Throws(NotImplemented)
  }

  /** Bound to a list's count, the placeholder is visible exactly when the list is empty. */
  lemma PlaceholderShownIffEmpty<T>(list: seq<T>)
    ensures EmptyListConvert(IntValue(|list|), VisibilityType) == Ok(Visible) <==> |list| == 0
    ensures EmptyListConvert(IntValue(|list|), VisibilityType) == Ok(Collapsed) <==> |list| > 0
  {
  }

  /**
   * CollectionToTextConverter.Convert: a null array throws; an empty array throws on
   * value[0]; when value[0] is a non-empty string collection the result is its lines joined
   * by "\n", and otherwise it is "".
   */
  function CollectionToTextConvert(values: Option<seq<BoundValue>>): (r: Result<string>)
    ensures r.Throws? <==> values.None? || |values.value| == 0
    ensures r.Throws? ==> r.kind == if values.None? then NullReference else IndexOutOfRange
    ensures r.Ok? && !(values.value[0].StringCollection? && |values.value[0].lines| > 0) ==> r.value == ""
  {
    match values
    case None => Throws(NullReference)
    case Some(vs) =>
      if |vs| == 0 then Throws(IndexOutOfRange)
      else if vs[0].StringCollection? && |vs[0].lines| > 0 then Ok(Join(vs[0].lines, "\n"))
      else Ok("")
  }

  /** CollectionToTextConverter.ConvertBack: a one-way converter. */
  function CollectionToTextConvertBack(value: string): (r: Result<seq<BoundValue>>)
    ensures r == Throws(NotImplemented)
  {
    Throws(NotImplemented)
  }

  /** Only value[0] is consulted: arrays that agree on their first entry convert alike. */
  lemma OnlyFirstValueCounts(a: seq<BoundValue>, b: seq<BoundValue>)
    requires |a| > 0 && |b| > 0 && a[0] == b[0]
    ensures CollectionToTextConvert(Some(a)) == CollectionToTextConvert(Some(b))
  {
  }

  /** The text block holds the lines in order: when no line contains a newline, splitting the
      text on "\n" gives the lines back. */
  lemma LinesRoundTrip(lines: seq<string>, rest: seq<BoundValue>)
    requires |lines| > 0
    requires forall i :: 0 <= i < |lines| ==> '\n' !in lines[i]
    ensures var r := CollectionToTextConvert(Some([StringCollection(lines)] + rest));
      r.Ok? && Split(r.value, '\n') == lines
  {
    SplitJoin(lines, '\n');
  }

  /** A single line is shown as it is, and lines are separated by exactly one newline each. */
  lemma {:induction false} JoinedLength(lines: seq<string>)
    requires |lines| > 0
    ensures |Join(lines, "\n")| == LinesLength(lines) + |lines| - 1
    ensures |lines| == 1 ==> Join(lines, "\n") == lines[0]
  {
    if |lines| > 1 {
      JoinedLength(lines[1..]);
    }
  }

  /** The total length of the lines. */
  function LinesLength(lines: seq<string>): nat
  {
    if |lines| == 0 then 0 else |lines[0]| + LinesLength(lines[1..])
  }
}
