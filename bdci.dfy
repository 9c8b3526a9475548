/**
 * The BDCI 2019 loaders (data_adapter/data_object.py): `load_csv_data` (lines 1177-1194),
 * `Bdci2019InternetNews._load_data` (lines 1205-1237) and
 * `Bdci2019FinancialNegative._load_data` (lines 1248-1294). Reading the files and the
 * CSV parser are left out: each file is given as the rows the parser yields, one per line.
 */
module Bdci {
  import opened Wrappers
  import opened Strings
  import opened Records

  type Row = seq<string>

  /** The rows of a file without its header row. */
  function BodyRows(rows: seq<Row>, skipFirstLine: bool): (r: seq<Row>)
    ensures skipFirstLine && rows != [] ==> r == rows[1..]
    ensures skipFirstLine && rows == [] ==> r == []
    ensures !skipFirstLine ==> r == rows
  {
    if skipFirstLine && rows != [] then rows[1..] else rows
  }

  /** `load_csv_data`: collect the parsed rows, then drop the first when asked. */
  method LoadCsvData(parsed: seq<Row>, skipFirstLine: bool) returns (result: seq<Row>)
    ensures result == BodyRows(parsed, skipFirstLine)
    ensures |result| == if skipFirstLine && parsed != [] then |parsed| - 1 else |parsed|
  {
    result := [];
    for i := 0 to |parsed|
      invariant result == parsed[..i]
    {
      PrefixSnoc(parsed, i);
      result := result + [parsed[i]];
    }
    assert result == parsed;
    if skipFirstLine {
      result := if result == [] then [] else result[1..];
    }
  }

  // ---------------------------------------------------------------------------
  // Internet news sentiment
  // ---------------------------------------------------------------------------

  /** The separator the news fields are joined with. */
  const FullStop: char := '。'

  /** Row `i` and its label row as a text: the id is field 0, the text is the remaining
      fields joined by '。', the label is field 1 of the label row. */
  function NewsText(dataRows: seq<Row>, labelRows: seq<Row>, i: nat): (r: Result<Text>)
    requires i < |dataRows|
    ensures r.Success? <==> |dataRows[i]| >= 1 && i < |labelRows| && |labelRows[i]| >= 2
    ensures r.Failure? ==> r.error == IndexError
    ensures r.Success? ==>
              && r.value.sampleId == dataRows[i][0]
              && r.value.text == Join(dataRows[i][1..], [FullStop])
              && r.value.polarity == Some(labelRows[i][1])
  {
    if |dataRows[i]| < 1 then Failure(IndexError)
    else if i >= |labelRows| || |labelRows[i]| < 2 then Failure(IndexError)
    else Success(Text(Join(dataRows[i][1..], [FullStop]), Some(labelRows[i][1]), dataRows[i][0]))
  }

  /** The texts of one partition, the rows paired with the label rows by position. */
  function NewsTexts(dataRows: seq<Row>, labelRows: seq<Row>, n: nat): Result<seq<Text>>
    requires n <= |dataRows|
    decreases n
  {
    if n == 0 then Success([])
    else
      match NewsTexts(dataRows, labelRows, n - 1)
      case Failure(e) => Failure(e)
      case Success(acc) =>
        match NewsText(dataRows, labelRows, n - 1)
        case Failure(e) => Failure(e)
        case Success(t) => Success(acc + [t])
  }

  /** A partition loads exactly when every row has an id and a label row with a label
      stands at the same position; then text `i` comes from rows `i`. */
  lemma {:induction false} NewsTextsShape(dataRows: seq<Row>, labelRows: seq<Row>, n: nat)
    requires n <= |dataRows|
    ensures NewsTexts(dataRows, labelRows, n).Success? <==>
              forall i :: 0 <= i < n ==> NewsText(dataRows, labelRows, i).Success?
    ensures NewsTexts(dataRows, labelRows, n).Success? ==>
              |NewsTexts(dataRows, labelRows, n).value| == n
              && forall i :: 0 <= i < n ==> NewsText(dataRows, labelRows, i) == Success(NewsTexts(dataRows, labelRows, n).value[i])
    decreases n
  {
    if n > 0 {
      NewsTextsShape(dataRows, labelRows, n - 1);
    }
  }

  /** A short label file fails the whole partition. */
  lemma {:induction false} MissingLabelFails(dataRows: seq<Row>, labelRows: seq<Row>)
    requires |labelRows| < |dataRows|
    ensures NewsTexts(dataRows, labelRows, |dataRows|).Failure?
  {
    NewsTextsShape(dataRows, labelRows, |dataRows|);
    assert NewsText(dataRows, labelRows, |labelRows|).Failure?;
  }

  /** When no field holds '。', the fields after the id are recovered by splitting the
      text on '。'. */
  lemma {:induction false} NewsFieldsRecovered(dataRows: seq<Row>, labelRows: seq<Row>, i: nat)
    requires i < |dataRows| && NewsText(dataRows, labelRows, i).Success?
    requires |dataRows[i]| >= 2
    requires forall k :: 1 <= k < |dataRows[i]| ==> FullStop !in dataRows[i][k]
    ensures SplitOn(NewsText(dataRows, labelRows, i).value.text, FullStop) == dataRows[i][1..]
  {
    var fields := dataRows[i][1..];
    assert forall k :: 0 <= k < |fields| ==> fields[k] == dataRows[i][k + 1];
    SplitJoin(fields, FullStop);
  }

  lemma {:induction false} NewsTextsFailurePersists(dataRows: seq<Row>, labelRows: seq<Row>, j: nat, n: nat)
    requires j <= n <= |dataRows| && NewsTexts(dataRows, labelRows, j).Failure?
    ensures NewsTexts(dataRows, labelRows, n) == NewsTexts(dataRows, labelRows, j)
    decreases n
  {
    if j < n {
      NewsTextsFailurePersists(dataRows, labelRows, j, n - 1);
    }
  }

  /** Lines 1225-1233 for one partition. */
  method ReadNews(dataRows: seq<Row>, labelRows: seq<Row>) returns (r: Result<seq<Text>>)
    ensures r == NewsTexts(dataRows, labelRows, |dataRows|)
  {
    var samples: seq<Text> := [];
    for i := 0 to |dataRows|
      invariant NewsTexts(dataRows, labelRows, i) == Success(samples)
    {
      if |dataRows[i]| < 1 || i >= |labelRows| || |labelRows[i]| < 2 {
        NewsTextsFailurePersists(dataRows, labelRows, i + 1, |dataRows|);
        return Failure(IndexError);
      }
      var sampleId := dataRows[i][0];
      var data := Join(dataRows[i][1..], [FullStop]);
      var target := labelRows[i][1];
      samples := samples + [Text(data, Some(target), sampleId)];
    }
    r := Success(samples);
  }

  /** The news corpus: train from the training rows and labels, then test from the test
      rows and the example submission; no dev partition. */
  function NewsCorpus(trainRows: seq<Row>, trainLabelRows: seq<Row>, testRows: seq<Row>, testLabelRows: seq<Row>)
    : (r: Result<Partitions<Text>>)
    ensures r.Success? ==> r.value.dev.None? && r.value.train.Some? && r.value.test.Some?
    ensures r.Success? ==> |r.value.train.value| == |trainRows| && |r.value.test.value| == |testRows|
  {
    NewsTextsShape(trainRows, trainLabelRows, |trainRows|);
    NewsTextsShape(testRows, testLabelRows, |testRows|);
    match NewsTexts(trainRows, trainLabelRows, |trainRows|)
    case Failure(e) => Failure(e)
    case Success(train) =>
      match NewsTexts(testRows, testLabelRows, |testRows|)
      case Failure(e) => Failure(e)
      case Success(test) => Success(Partitions(Some(train), None, Some(test)))
  }

  method LoadNews(trainRows: seq<Row>, trainLabelRows: seq<Row>, testRows: seq<Row>, testLabelRows: seq<Row>)
    returns (r: Result<Partitions<Text>>)
    ensures r == NewsCorpus(trainRows, trainLabelRows, testRows, testLabelRows)
  {
    var train := ReadNews(trainRows, trainLabelRows);
    if train.Failure? {
      return Failure(train.error);
    }
    var test := ReadNews(testRows, testLabelRows);
    if test.Failure? {
      return Failure(test.error);
    }
    r := Success(Partitions(Some(train.value), None, Some(test.value)));
  }

  // ---------------------------------------------------------------------------
  // Financial negative entities
  // ---------------------------------------------------------------------------

  /** The marker between a title and its content in a document's text. */
  const ContentBegin: string := "content-begin。"

  /** The rule of lines 1280-1286: an entity listed among the key entities gets '1', any
      other '0'. */
  method EntityCategories(entities: seq<string>, keyEntities: seq<string>) returns (categories: seq<AspectCategory>)
    ensures |categories| == |entities|
    ensures forall k :: 0 <= k < |entities| ==> categories[k].category == entities[k]
    ensures forall k :: 0 <= k < |entities| ==> (categories[k].polarity == "1" <==> entities[k] in keyEntities)
    ensures forall k :: 0 <= k < |entities| ==> categories[k].polarity in {"0", "1"}
  {
    categories := [];
    for i := 0 to |entities|
      invariant |categories| == i
      invariant forall k :: 0 <= k < i ==> categories[k] == AspectCategory(entities[k], if entities[k] in keyEntities then "1" else "0")
    {
      var polarity := if entities[i] in keyEntities then "1" else "0";
      categories := categories + [AspectCategory(entities[i], polarity)];
    }
  }

  /** The categories of a row's entities. */
  function CategoriesOf(entities: seq<string>, keyEntities: seq<string>): (r: seq<AspectCategory>)
    ensures |r| == |entities|
  {
    seq(|entities|, k requires 0 <= k < |entities| => AspectCategory(entities[k], if entities[k] in keyEntities then "1" else "0"))
  }

  /** One row as a document: training rows carry their polarity (field 4) and key
      entities (field 5); test rows have polarity 0 and no key entity. */
  function FinancialDocument(row: Row, isTrain: bool): (r: Result<AbsaDocument>)
    ensures r.Success? <==> |row| >= (if isTrain then 6 else 4)
    ensures r.Failure? ==> r.error == IndexError
    ensures r.Success? ==>
              && r.value.sampleId == row[0]
              && r.value.text == row[1] + ContentBegin + row[2]
              && r.value.polarity == Some(if isTrain then row[4] else "0")
              && r.value.aspectTerms.None? && r.value.absaSentences.None?
              && r.value.aspectCategories.Some?
              && |r.value.aspectCategories.value| == |SplitOn(row[3], ';')|
  {
    if |row| < 4 || (isTrain && |row| < 6) then Failure(IndexError)
    else
      var entities := SplitOn(row[3], ';');
      var keyEntities := if isTrain then SplitOn(row[5], ';') else [];
      Success(AbsaDocument(row[1] + ContentBegin + row[2], Some(if isTrain then row[4] else "0"),
                           Some(CategoriesOf(entities, keyEntities)), None, None, row[0]))
  }

  /** The names of a document's categories, joined by ';', give back field 3. */
  lemma {:induction false} EntitiesRoundTrip(row: Row, isTrain: bool)
    requires FinancialDocument(row, isTrain).Success?
    ensures var cats := FinancialDocument(row, isTrain).value.aspectCategories.value;
            Join(seq(|cats|, k requires 0 <= k < |cats| => cats[k].category), ";") == row[3]
  {
    var cats := FinancialDocument(row, isTrain).value.aspectCategories.value;
    var names := seq(|cats|, k requires 0 <= k < |cats| => cats[k].category);
    assert names == SplitOn(row[3], ';');
    JoinSplit(row[3], ';');
  }

  /** In the test partition no entity is a key entity. */
  lemma {:induction false} TestEntitiesAreNotKey(row: Row)
    requires FinancialDocument(row, false).Success?
    ensures forall c :: c in FinancialDocument(row, false).value.aspectCategories.value ==> c.polarity == "0"
  {
  }

  /** A training entity is marked '1' exactly when it is among field 5's entities. */
  lemma {:induction false} TrainKeyEntities(row: Row, k: nat)
    requires FinancialDocument(row, true).Success?
    requires k < |FinancialDocument(row, true).value.aspectCategories.value|
    ensures var c := FinancialDocument(row, true).value.aspectCategories.value[k];
            && c.category == SplitOn(row[3], ';')[k]
            && (c.polarity == "1" <==> c.category in SplitOn(row[5], ';'))
  {
  }

  /** One partition's documents, row by row. */
  function FinancialDocuments(rows: seq<Row>, isTrain: bool): Result<seq<AbsaDocument>> {
    Collect(rows, (row: Row) => FinancialDocument(row, isTrain))
  }

  /** Lines 1272-1289 for one row. */
  method ReadFinancialRow(row: Row, isTrain: bool) returns (r: Result<AbsaDocument>)
    ensures r == FinancialDocument(row, isTrain)
  {
    if |row| < 4 {
      return Failure(IndexError);
    }
    var sampleId := row[0];
    var title := row[1];
    var content := row[2];
    var entities := SplitOn(row[3], ';');
    if isTrain && |row| < 6 {
      return Failure(IndexError);
    }
    var textPolarity := if isTrain then row[4] else "0";
    var keyEntities := if isTrain then SplitOn(row[5], ';') else [];
    var categories := EntityCategories(entities, keyEntities);
    assert categories == CategoriesOf(entities, keyEntities);
    var text := title + ContentBegin + content;
    r := Success(AbsaDocument(text, Some(textPolarity), Some(categories), None, None, sampleId));
  }

  /** Lines 1271-1290 for one partition. */
  method ReadFinancialRows(rows: seq<Row>, isTrain: bool) returns (r: Result<seq<AbsaDocument>>)
    ensures r == FinancialDocuments(rows, isTrain)
  {
    var f := (row: Row) => FinancialDocument(row, isTrain);
    var samples: seq<AbsaDocument> := [];
    for i := 0 to |rows|
      invariant Collect(rows[..i], f) == Success(samples)
    {
      PrefixSnoc(rows, i);
      assert rows[..i + 1][..i] == rows[..i];
      var d := ReadFinancialRow(rows[i], isTrain);
      if d.Failure? {
        CollectFailurePersists(rows, i + 1, f);
        return Failure(d.error);
      }
      samples := samples + [d.value];
    }
    assert rows[..|rows|] == rows;
    r := Success(samples);
  }

  /** The financial corpus: train, then test; no dev partition. The example submission
      file is read but not used. */
  function FinancialCorpus(trainRows: seq<Row>, testRows: seq<Row>): (r: Result<Partitions<AbsaDocument>>)
    ensures r.Success? <==>
              (forall i :: 0 <= i < |trainRows| ==> |trainRows[i]| >= 6)
              && (forall i :: 0 <= i < |testRows| ==> |testRows[i]| >= 4)
    ensures r.Success? ==>
              && r.value.dev.None?
              && r.value.train.Some? && |r.value.train.value| == |trainRows|
              && r.value.test.Some? && |r.value.test.value| == |testRows|
  {
    CollectShape(trainRows, (row: Row) => FinancialDocument(row, true));
    CollectShape(testRows, (row: Row) => FinancialDocument(row, false));
    match FinancialDocuments(trainRows, true)
    case Failure(e) => Failure(e)
    case Success(train) =>
      match FinancialDocuments(testRows, false)
      case Failure(e) => Failure(e)
      case Success(test) => Success(Partitions(Some(train), None, Some(test)))
  }

  method LoadFinancial(trainRows: seq<Row>, testRows: seq<Row>) returns (r: Result<Partitions<AbsaDocument>>)
    ensures r == FinancialCorpus(trainRows, testRows)
  {
    var train := ReadFinancialRows(trainRows, true);
    if train.Failure? {
      return Failure(train.error);
    }
    var test := ReadFinancialRows(testRows, false);
    if test.Failure? {
      return Failure(test.error);
    }
    r := Success(Partitions(Some(train.value), None, Some(test.value)));
  }
}
