# ABSA data adapters in Dafny

This project models the core of `data_adapter/data_object.py`. That file turns several
aspect-based sentiment analysis (ABSA) corpora into one record model, and derives labelled
training samples from it.

The corpora are:
- ASGCN;
- NLPCC 2012 Weibo;
- SemEval-2014 Task 4 and MAMS;
- SemEval-2015 Task 12 and SemEval-2016 Task 5, subtasks 1 and 2;
- the two BDCI 2019 datasets.

The record model is:
- `AspectTerm`: a term, a polarity, a literal span and an optional category;
- `AspectCategory`: a category and a polarity;
- `Text`;
- `AbsaSentence`;
- `AbsaDocument`.

Records are datatypes (module `Records`). Python's `None` is `None` of `Option`. Every
Python exception the code can raise is a `PyError` inside `Result`:
- `TypeError` appears when a `None` list is iterated, a missing attribute is converted, or
  `None` is sorted with strings;
- `KeyError` appears for a missing markup attribute or dictionary key;
- `IndexError` appears for a short row, line or file;
- `ValueError` appears when `int()` is applied to a non-numeral, and where the split
  library refuses;
- `AttributeError` appears for `None.split`.

Each loader is given what the markup or CSV parser yields:
- attribute maps and texts for the markup files;
- rows for the CSV files;
- lines for the text files.

Each loader rebuilds the documents with the same loops as the source. Where the source
builds a list step by step, the model is a method with a loop, proved equal to a
specification function. The functions carry the properties:
- offsets that locate each span;
- error conditions in both directions;
- the order and count of what was read.

Modules:
- `Records` holds the records, the `{train, dev, test}` partitions and the `[content, label]`
  sample.
- `Strings` holds the Python string operations the adapters use: `strip`, `partition`,
  `split`, `join`, `in`, `'%d' %` and `int()`.
- `Normalise` holds the three newline normalisations (`re.sub` with `[\r\n]` → `''`,
  `[\r\n]` → `' '`, and `[\r\n]+` → `' '`).
- `Asgcn`, `Weibo`, `Semeval` and `Bdci` hold the loaders.
- `Dataset` holds `BaseDataset`: a class whose fields are the three partitions, with
  `get_sentences` and `get_documents`.
- `Splits` holds `DataTypeAndData`, the `result` dictionary that `generate_dev_data` updates
  in place, and the dev-partition rule.
- `Vocabulary` holds `sorted(list(set))` on string and optional-string vocabularies.
- `Reconciliation` holds the SemEval-2015 polarity reconciliation of term-derived categories.
- `Derivation` holds the per-partition sample loop that every `generate_*_data` method
  shares.
- `Tasks` holds what each `generate_*_data` method makes of one sentence or document, and
  the methods themselves.

## Model

| member | source | states |
|---|---|---|
| Records.NewAspectTerm | data_adapter/data_object.py:34-41 | The constructor succeeds exactly when both offsets parse under `int()`, and then stores those values with the other fields unchanged. Otherwise it fails with ValueError. |
| Records.NewAspectTermOfNumerals | data_adapter/data_object.py:34-41 | Offsets written as decimal numerals are read back as the same numbers. |
| Records.PlainTextOfSentences | data_adapter/data_object.py:105-115 | The result is no texts for a document without sentences; otherwise one text per sentence, in order, each that sentence's text. |
| Records.WithPart | data_adapter/data_object.py:135-141 | Assigning one partition key sets that entry and leaves the other two unchanged. |
| Records.KindOfName | data_adapter/data_object.py:150-154 | A name selects the train, dev or test partition exactly when it is `"train"`, `"dev"` or `"test"`. |
| Dataset.BaseDataset.constructor | data_adapter/data_object.py:124-126 | The dataset holds exactly the three partitions the loader returned. |
| Dataset.BaseDataset.Lookup | data_adapter/data_object.py:150-154 | An unknown or None data type finds nothing. A known one yields its partition, absent or not. |
| Dataset.BaseDataset.GetSentences | data_adapter/data_object.py:143-159 | The result is `SentencesOfKind` of the dataset's partitions: the nested loop collects every sentence text in order. |
| Dataset.BaseDataset.GetDocuments | data_adapter/data_object.py:161-176 | The result is `DocumentsOfKind` of the dataset's partitions. |
| Dataset.SentencesOfKind | data_adapter/data_object.py:143-159 | An unknown name yields an empty list. An absent partition raises TypeError, because iterating None fails. |
| Dataset.SentencesOfKindCount | data_adapter/data_object.py:155-159 | A present partition yields exactly one text per sentence of its documents. |
| Dataset.SentenceTextsAppend | data_adapter/data_object.py:155-159 | The sentence texts of two batches of documents are those of the first batch followed by those of the second. |
| Dataset.DocumentsOfKind | data_adapter/data_object.py:161-176 | An unknown name yields an empty list. An absent partition raises TypeError. Otherwise there is one text per document. |
| Dataset.DocumentTextsOf | data_adapter/data_object.py:173-175 | Text `i` is document `i`'s text, and there is one per document. |
| Strings.Lower | data_adapter/data_object.py:254-255 | `lower()` keeps the length, leaves no ASCII capital, keeps every other character, and turns each capital into its small letter. |
| Strings.LowerIdempotent | data_adapter/data_object.py:254-255 | Lowering an already lowered text changes nothing. |
| Strings.Strip | data_adapter/data_object.py:254-256 | The result neither starts nor ends with whitespace. |
| Strings.StripIsSlice | data_adapter/data_object.py:254-256 | `strip()` returns a contiguous slice of the input. Only whitespace lies outside the slice. |
| Strings.NoSpaceAtEnds | data_adapter/data_object.py:254-256 | A string that neither starts nor ends with whitespace is left unchanged by stripping. |
| Strings.Find | data_adapter/data_object.py:254 | `find` returns the first index where the pattern occurs, or nothing when it does not occur. |
| Strings.ContainsIffSlice | data_adapter/data_object.py:338 | `p in s` holds exactly when some slice of `s` equals `p`. |
| Strings.Partition | data_adapter/data_object.py:254 | The three parts concatenate back to the input. The separator part is the separator exactly when it occurs, and empty otherwise. The part before it holds no earlier occurrence. |
| Strings.SplitOn | data_adapter/data_object.py:343 | `split(d)` yields at least one field, and no field contains `d`. |
| Strings.SplitFirstField | data_adapter/data_object.py:1146 | The first field of a split is the text before the first separator, or the whole string when there is none. |
| Strings.JoinSplit | data_adapter/data_object.py:1276 | Joining the fields of a split with the separator gives back the original string. |
| Strings.SplitJoin | data_adapter/data_object.py:1229 | Splitting a join of separator-free fields gives back the fields. |
| Strings.SplitOnConcat | data_adapter/data_object.py:343 | Splitting `a + d + b`, where `d` does not occur in `a`, yields `a` followed by the fields of `b`. |
| Strings.JoinIsConcat | data_adapter/data_object.py:319 | `''.join` is plain concatenation. |
| Strings.ConcatSlice | data_adapter/data_object.py:317-319 | In a concatenation, part `k` occupies the slice that starts at the total length of the parts before it. |
| Strings.NatToString | data_adapter/data_object.py:307 | `'%d' % n` is a non-empty run of decimal digits. |
| Strings.NatToStringInjective | data_adapter/data_object.py:307-311 | Different cursors give different numerals, so the attribute names never collide. |
| Strings.ParseInt | data_adapter/data_object.py:38-40 | Every failure of `int()` is a ValueError; its values are stated by `Strings.ParseDigits` and `Strings.ParseNegativeDigits`. |
| Strings.ParseFormattedInt | data_adapter/data_object.py:38-40 | `int()` of a formatted number, with or without a minus sign, gives back that number. |
| Strings.ParseDigits | data_adapter/data_object.py:38-40 | `int()` of a run of decimal digits is its decimal value. |
| Strings.ParseNegativeDigits | data_adapter/data_object.py:38-40 | `int()` of a minus sign followed by digits is the negated decimal value. |
| Normalise.DeleteNewlines | data_adapter/data_object.py:196 | The result has no `\r` or `\n`, and is shorter than the input by exactly the number of those characters. |
| Normalise.NewlinesToSpaces | data_adapter/data_object.py:468 | The result has the input's length and no `\r` or `\n`. |
| Normalise.CollapseNewlines | data_adapter/data_object.py:633 | The result has no `\r` or `\n`, and is no longer than the input. |
| Normalise.NormalisationsFixNewlineFree | data_adapter/data_object.py:196 | On newline-free text, all three normalisations return the text unchanged. |
| Normalise.NormalisationsIdempotent | data_adapter/data_object.py:468 | Applying any of the three normalisations twice gives the same result as applying it once. |
| Normalise.CollapseIsReplaceOnSingleNewlines | data_adapter/data_object.py:633 | Collapsing runs agrees with character-by-character replacement on texts without two adjacent newline characters. |
| Normalise.CollapseShortensRuns | data_adapter/data_object.py:633 | Collapsing turns `\r\n` into one space. |
| Normalise.ReplaceKeepsRuns | data_adapter/data_object.py:468 | Character-by-character replacement turns `\r\n` into two spaces, so the two rules differ on Windows line ends. |
| Normalise.DeleteRemovesRuns | data_adapter/data_object.py:196 | Deletion removes `\r\n` altogether. |
| Asgcn.PolarityOfCode | data_adapter/data_object.py:250-252 | The codes `-1`, `0` and `1` map to negative, neutral and positive, each in both directions. Any other code fails with KeyError. |
| Asgcn.PlaceAspect | data_adapter/data_object.py:257-265 | The span starts at 0 without left context, and otherwise at `len(left)+1`, after `left` and a space. It ends `len(aspect)` later. The sliced text is the aspect. `" " + right` follows exactly when `right` is non-empty. |
| Asgcn.GroupSentence | data_adapter/data_object.py:254-269 | A group fails exactly when its stripped polarity code is unknown (KeyError). Otherwise the sentence has one term: the lower-cased stripped aspect, with the mapped polarity and no category, and no category list. |
| Asgcn.GroupSentenceSpan | data_adapter/data_object.py:263-268 | Every loaded term's span lies inside its sentence and holds exactly the term, so the error of line 267 is unreachable. |
| Asgcn.FileSentencesCount | data_adapter/data_object.py:253-270 | A file of `g` complete groups whose codes are all valid loads exactly `g` sentences. |
| Asgcn.IncompleteFileFails | data_adapter/data_object.py:255-256 | A trailing group of one or two lines makes the file fail. |
| Asgcn.ReadSentences | data_adapter/data_object.py:253-270 | The loop with stride 3 returns what the group-by-group specification `FileSentences` gives, including its first error. |
| Asgcn.LoadFile | data_adapter/data_object.py:271 | Each sentence is wrapped in its own document, one document per sentence, in order. |
| Asgcn.LoadData | data_adapter/data_object.py:243-273 | The first failing file's error is returned. Otherwise document `k` of train is `SingleSentenceDocument` of sentence `k` of the first file, document `k` of test is the same for the second file, and there is no dev partition. |
| Weibo.WordKeyInjective | data_adapter/data_object.py:307-308 | Different cursors name different `target_word_N` attributes. |
| Weibo.KeysShrink | data_adapter/data_object.py:307-314 | Each iteration of the target loop leaves fewer attributes unvisited, so the loop terminates. |
| Weibo.IntAttribute | data_adapter/data_object.py:309-310 | `int(tag.get(key))` raises TypeError for a missing attribute, and otherwise is `int()` of its text. |
| Weibo.TargetTerm | data_adapter/data_object.py:308-312 | Target `N` is a term exactly when both offsets convert. It keeps the word and the begin offset. Its polarity is `get(target_polarity_N)`. Its end is `target_end_N + 1`, turning the inclusive end into an exclusive one. |
| Weibo.TargetsInOrder | data_adapter/data_object.py:306-314 | If targets `n..k` are well formed and word `k+1` is absent or empty, then the scan yields exactly `k+1-n` terms, term `i` from target `n+i`. |
| Weibo.TargetsAreTerms | data_adapter/data_object.py:306-314 | Every successful scan yields target `n+i`'s term at position `i`, in cursor order. |
| Weibo.ReadTargets | data_adapter/data_object.py:305-314 | The `while` loop over the cursor returns the recursive specification `Targets` from cursor 1, including its first error. |
| Weibo.SentenceOf | data_adapter/data_object.py:299-316 | A sentence keeps its text, its `id` (default `''`) and its start. A sentence that is not opinionated has polarity None and an empty term list. An opinionated one fails exactly when its targets do, and otherwise carries `get('polarity')` and the targets. |
| Weibo.TagTexts | data_adapter/data_object.py:319 | Text `i` is that of sentence tag `i`. |
| Weibo.SentencesFromOffsets | data_adapter/data_object.py:297-318 | Sentence `k` keeps tag `k`'s text. Its `start_index_in_doc` is the start plus the total length of the earlier sentences. |
| Weibo.WeiboSentencesLocated | data_adapter/data_object.py:297-322 | Every sentence's recorded start locates its text inside the document text: `doc.text[start:start+len] == text`. |
| Weibo.ReadSentence | data_adapter/data_object.py:299-316 | Reading one tag is `SentenceOf` at the running start. |
| Weibo.ReadWeibo | data_adapter/data_object.py:294-322 | The loop with the running start index computes `WeiboDocument`: sentences in order, with text their concatenation. |
| Weibo.TextEnd | data_adapter/data_object.py:336-340 | This is the index of the first line mentioning `root_text_begin`, or the number of lines when none does. No earlier line mentions it. |
| Weibo.TextLines | data_adapter/data_object.py:335-341 | The text lines are the lines after the header, cut just before the first marker line. |
| Weibo.SnippetOfAnnotation | data_adapter/data_object.py:343 | The snippet of an annotation line `id \t label \t snippet` is its third field. |
| Weibo.ReadSnippets | data_adapter/data_object.py:343 | The loop computes the comprehension `Snippets`: empty lines are skipped, and a short line raises IndexError. |
| Weibo.LinePolarity | data_adapter/data_object.py:345-350 | A line gets `other` exactly when some snippet occurs in it, and None exactly when none does. |
| Weibo.PolarityOfLine | data_adapter/data_object.py:346-350 | The loop that breaks on the first matching snippet computes `LinePolarity`. |
| Weibo.ReadTestFile | data_adapter/data_object.py:335-357 | One test file loads as `TestDocument`. |
| Weibo.TestDocumentShape | data_adapter/data_object.py:335-356 | A test document has one sentence per text line, in order, with no terms. Its text is the concatenation of those lines. |
| Weibo.WeiboCorpus | data_adapter/data_object.py:284-359 | A loaded corpus has all three partitions. Train and dev are the 0.2 split, under the configured seed, of the successfully loaded weibo documents. |
| Weibo.LoadData | data_adapter/data_object.py:284-359 | The loops over tags and test files compute `WeiboCorpus`. |
| Semeval.Attr | data_adapter/data_object.py:391-394 | `tag[key]` returns the attribute value exactly when it is present, and otherwise fails with KeyError. |
| Semeval.Term2014 | data_adapter/data_object.py:391-396 | A missing `term`, `polarity`, `from` or `to` gives KeyError. A loaded term carries those attributes, with offsets equal to `int()` of their text, and no category. |
| Semeval.Term2014Numerals | data_adapter/data_object.py:391-396 | A term element whose offsets are numerals loads with exactly those offsets and its attributes. |
| Semeval.Category2014 | data_adapter/data_object.py:400-403 | A category element loads exactly when it has `category` and `polarity`, and then carries them. Otherwise it fails with KeyError. |
| Semeval.Sentence2014Shape | data_adapter/data_object.py:386-404 | A loaded sentence keeps its text. It has one term per term element and one category per category element, each loaded from that element, in order. |
| Semeval.File2014Shape | data_adapter/data_object.py:384-406 | A file loads exactly when each of its sentences does. Then it holds one single-sentence document per sentence, in file order, with that sentence's text. |
| Semeval.ReadSentence2014 | data_adapter/data_object.py:386-405 | The two element loops compute `Sentence2014`. |
| Semeval.ReadFile2014 | data_adapter/data_object.py:384-406 | The sentence loop computes `File2014`. |
| Semeval.Corpus2014 | data_adapter/data_object.py:372-411 | The corpus loads exactly when each given file does. Errors are reported in the order train, then test, then dev. A partition is absent exactly when its file was not given. |
| Semeval.ReadOptional2014 | data_adapter/data_object.py:379-381 | A file that is not given yields None. |
| Semeval.LoadData2014 | data_adapter/data_object.py:367-411 | The loader computes `Corpus2014`. |
| Semeval.OpinionOf | data_adapter/data_object.py:591-602 | A missing `category` or `polarity` gives KeyError. An untargeted opinion is a category carrying both. A targeted one that loads is a term carrying the target, the polarity, the category and the parsed offsets. |
| Semeval.CountTargeted | data_adapter/data_object.py:594 | The number of targeted opinions is at most the number of opinions. |
| Semeval.OpinionsPartition | data_adapter/data_object.py:591-602 | Every opinion lands in exactly one list: targeted ones become terms, each with a category, and the others become categories. |
| Semeval.ReadOpinions | data_adapter/data_object.py:588-602 | The opinion loop computes `Opinions`, including the first error. |
| Semeval.ChildlessOpinionsAreCategories | data_adapter/data_object.py:753 | Under subtask 2's `'target' in opinion_tag`, which tests children, a childless opinion element is never targeted, whatever its attributes. Every such opinion becomes a category. |
| Semeval.SentenceTextsOfTags | data_adapter/data_object.py:605 | Text `i` is sentence tag `i`'s text. |
| Semeval.Review2015Shape | data_adapter/data_object.py:582-606 | A loaded review has one sentence per sentence tag, in order, each with its tag's text. The review text is the concatenation of the sentence texts. |
| Semeval.ReadReview2015 | data_adapter/data_object.py:582-607 | The sentence loop computes `Review2015`. |
| Semeval.ReviewSub2Shape | data_adapter/data_object.py:737-762 | A loaded subtask-2 review keeps every opinion at document level, as a term or as a category. Its sentences are plain, with no opinions. |
| Semeval.ReadReviewSub2 | data_adapter/data_object.py:737-763 | The two loops compute `ReviewSub2`. |
| Semeval.ReviewCorpus | data_adapter/data_object.py:573-612 | The corpus loads exactly when both given files do, with the train error reported first. There is no dev partition. A partition is absent exactly when its file was not given. Present partitions have one document per review. |
| Semeval.ReviewsCount | data_adapter/data_object.py:580-608 | A loaded file has one document per review. |
| Semeval.ReadReview | data_adapter/data_object.py:582-607 | Reading one review follows its layout. |
| Semeval.ReadReviewsFile | data_adapter/data_object.py:580-608 | The review loop computes `ReviewsFile`. |
| Semeval.LoadReviews | data_adapter/data_object.py:566-612 | The loader computes `ReviewCorpus` for the SemEval-2015 and SemEval-2016 subtask 2 layouts. |
| Bdci.BodyRows | data_adapter/data_object.py:1192-1193 | With `skip_first_line`, the header row is dropped (none for an empty file); otherwise all rows are kept. |
| Bdci.LoadCsvData | data_adapter/data_object.py:1184-1194 | The collected rows are `BodyRows`, one fewer than parsed when the header is skipped. |
| Bdci.NewsText | data_adapter/data_object.py:1227-1231 | Row `i` loads exactly when it has an id and label row `i` exists with at least two fields. Otherwise it raises IndexError. The text is the remaining fields joined by `。`, and the label is field 1. |
| Bdci.NewsTextsShape | data_adapter/data_object.py:1225-1233 | A partition loads exactly when every row does. Then it has one text per row, text `i` from rows `i`. |
| Bdci.MissingLabelFails | data_adapter/data_object.py:1230 | A label file shorter than the data file fails the partition. |
| Bdci.NewsFieldsRecovered | data_adapter/data_object.py:1229 | When no field contains `。`, splitting the text on `。` gives back the fields after the id. |
| Bdci.ReadNews | data_adapter/data_object.py:1226-1233 | The row loop computes `NewsTexts`. |
| Bdci.NewsCorpus | data_adapter/data_object.py:1220-1237 | A loaded corpus has train and test, with one text per data row, and no dev partition. |
| Bdci.LoadNews | data_adapter/data_object.py:1205-1237 | The loader computes `NewsCorpus`. |
| Bdci.EntityCategories | data_adapter/data_object.py:1279-1286 | There is one category per entity, in order. Its polarity is `1` exactly when the entity is a key entity, and `0` otherwise. |
| Bdci.CategoriesOf | data_adapter/data_object.py:1279-1286 | There is one category per entity. |
| Bdci.FinancialDocument | data_adapter/data_object.py:1272-1288 | A row loads exactly when it has at least 6 fields (train) or at least 4 fields (test); otherwise it raises IndexError. The text is the title, `content-begin。` and the content. The polarity is field 4 in train and 0 in test. There is one category per entity of field 3. |
| Bdci.EntitiesRoundTrip | data_adapter/data_object.py:1276-1286 | The category names joined by `;` give back field 3. |
| Bdci.TestEntitiesAreNotKey | data_adapter/data_object.py:1278-1284 | In the test partition every entity has polarity `0`. |
| Bdci.TrainKeyEntities | data_adapter/data_object.py:1276-1286 | In train, category `k` is entity `k` of field 3. It is marked `1` exactly when it is among field 5's entities. |
| Bdci.ReadFinancialRow | data_adapter/data_object.py:1272-1289 | The entity loop computes `FinancialDocument`. |
| Bdci.ReadFinancialRows | data_adapter/data_object.py:1271-1290 | The row loop returns the documents of every row, or the first row's error. |
| Bdci.FinancialCorpus | data_adapter/data_object.py:1262-1294 | The corpus loads exactly when every train row has at least 6 fields and every test row has at least 4. Then it has one document per row and no dev partition. |
| Bdci.LoadFinancial | data_adapter/data_object.py:1248-1294 | The loader computes `FinancialCorpus`. |
| Splits.SplitTrain | data_adapter/data_object.py:224-229 | A missing train partition raises TypeError, and failures are TypeError or ValueError. On success, test is unchanged, and train and dev are the two halves the splitter returns for the old train. |
| Splits.WithDevData | data_adapter/data_object.py:223-231 | An existing dev partition is kept with nothing changed. A size of 0.0 makes dev the test partition. Otherwise train is split, also when the size is None, because `None != 0.0` holds; None is passed on to the split library. |
| Splits.DataTypeAndData.Put | data_adapter/data_object.py:204 | `result[data_type] = samples` sets that key only. |
| Splits.DataTypeAndData.GenerateDevData | data_adapter/data_object.py:214-231 | Updates `result` in place to `WithDevData` of its old value: nothing changes when dev exists, dev becomes test when the size is 0.0, and test is never touched. On an exception, `result` is left as it was. |
| Splits.DataTypeAndData.SplitTrainForDev | data_adapter/data_object.py:205-209 | The inline split reassigns train and dev as `SplitTrain` says and never touches test. On an exception nothing changes. |
| Splits.DevDataOf | data_adapter/data_object.py:214-231 | Running `generate_dev_data` on a fresh dictionary yields `WithDevData` of the partitions. |
| Splits.SplitTrainOf | data_adapter/data_object.py:205-209 | Running the inline split on a fresh dictionary yields `SplitTrain` of the partitions. |
| Vocabulary.StrLtIrreflexive | data_adapter/data_object.py:210-211 | Python's string order is irreflexive. |
| Vocabulary.StrLtTransitive | data_adapter/data_object.py:210-211 | Python's string order is transitive. |
| Vocabulary.StrLtTotal | data_adapter/data_object.py:210-211 | Python's string order is total on distinct strings. |
| Vocabulary.Least | data_adapter/data_object.py:210-211 | A non-empty vocabulary has a least string. |
| Vocabulary.SortStrings | data_adapter/data_object.py:479-480 | `sorted(set)` lists exactly the set's members, strictly increasing. |
| Vocabulary.SortedListingUnique | data_adapter/data_object.py:479-482 | The sorted listing of a set is unique, so vocabulary indices do not depend on set iteration order. |
| Vocabulary.SortOptions | data_adapter/data_object.py:210-211 | Sorting fails with TypeError exactly when None is mixed with strings. Otherwise the result lists exactly the vocabulary, sorted. |
| Vocabulary.OptionsBijection | data_adapter/data_object.py:479-482 | Without None, a vocabulary and its strings have the same size. |
| Reconciliation.Only | data_adapter/data_object.py:648 | `pop()` of a one-vote bucket returns its only vote. |
| Reconciliation.Reconcile | data_adapter/data_object.py:647-663 | A one-vote bucket yields its vote. Any other bucket yields conflict, positive or negative. Which of the three it yields is stated for every set of votes by `ReconcileConflict` and `ReconcileWithoutConflict`. |
| Reconciliation.ReconcileUnanimous | data_adapter/data_object.py:647-648 | A unanimous bucket keeps its polarity verbatim, even None. |
| Reconciliation.ReconcileConflict | data_adapter/data_object.py:652-653 | A bucket of two or more votes holding both positive and negative, or holding conflict, yields conflict. |
| Reconciliation.ReconcileWithoutConflict | data_adapter/data_object.py:654-663 | A bucket of two or more votes with neither opposite votes nor conflict yields positive when it holds positive and neutral, and negative otherwise. This holds for any vote strings, standard or not. |
| Reconciliation.ReconcileNonStandardVotes | data_adapter/data_object.py:654-663 | A vote outside the four labels does not stop positive and neutral from yielding positive. Without that pair, the bucket yields negative, even when it holds no negative vote. |
| Reconciliation.ReconcileChoosesAVote | data_adapter/data_object.py:647-663 | On the four standard labels, a bucket without opposite votes reconciles to one of its own votes. A mixed bucket never reconciles to neutral. |
| Reconciliation.ReconcileScenarios | data_adapter/data_object.py:635-663 | The three cases the comment names: {positive, negative} gives conflict in either order, {positive, neutral} gives positive, and {negative, neutral} gives negative. |
| Reconciliation.VotesMembers | data_adapter/data_object.py:640-645 | A polarity is in a category's bucket exactly when some term of that category carries it. |
| Reconciliation.VotesIgnoreOrder | data_adapter/data_object.py:640-645 | A bucket depends only on the multiset of terms, not on their order. |
| Reconciliation.CategoriesMembers | data_adapter/data_object.py:643-644 | The dictionary keys are exactly the terms' categories. |
| Reconciliation.CategoriesDistinct | data_adapter/data_object.py:643-644 | No key is listed twice. |
| Reconciliation.CategoriesFirstAppearance | data_adapter/data_object.py:643-646 | Keys are in order of first appearance: a key listed before another occurs before every term of the other. |
| Reconciliation.CategoryHasVotes | data_adapter/data_object.py:643-645 | Every key's bucket holds at least one vote. |
| Reconciliation.ReconciledLabel | data_adapter/data_object.py:646-663 | The label has one pair per key, and pair `j` names key `j`. |
| Reconciliation.PairsOf | data_adapter/data_object.py:646-663 | Pair `j` is key `j` with the reconciliation of its bucket. |
| Reconciliation.ReconciledLabelDistinct | data_adapter/data_object.py:646-663 | The label names no category twice. |
| Reconciliation.ReconciledLabelEmpty | data_adapter/data_object.py:664-665 | The label is empty exactly when the sentence has no terms, so that is the only way a sentence is dropped. |
| Reconciliation.ReconciledLabelCoversTerms | data_adapter/data_object.py:640-663 | Every term's category has a pair. |
| Reconciliation.ReconciledLabelOnlyTermCategories | data_adapter/data_object.py:640-663 | Every pair's category is some term's category. |
| Reconciliation.ReconciledLabelOrder | data_adapter/data_object.py:639-663 | Pairs are in order of first appearance of their categories. |
| Reconciliation.ReconciledLabelPolarity | data_adapter/data_object.py:646-663 | Each pair carries the reconciliation of its category's votes. A category whose terms all agree keeps their polarity. |
| Reconciliation.ReconciledPolarityIgnoresOrder | data_adapter/data_object.py:639-663 | Reordering a sentence's terms never changes the polarity reconciled for a category. |
| Reconciliation.AddedPolaritiesUseLastTerm | data_adapter/data_object.py:650 | Two terms of different categories keep both polarities in the label. Only the last term's polarity reaches the vocabulary, because line 650 adds the loop's leftover `polarity`. |
| Reconciliation.CategorySet | data_adapter/data_object.py:649-662 | The categories added to the vocabulary are exactly the label's categories. |
| Reconciliation.GroupByCategory | data_adapter/data_object.py:639-645 | The filled dictionary has exactly the terms' categories as keys, in insertion order of first appearance. Each key holds that category's votes. The leftover `polarity` is the last term's. |
| Reconciliation.ReconcileBucket | data_adapter/data_object.py:647-663 | The branches for one bucket compute `Reconcile`. |
| Reconciliation.ReconcileSentence | data_adapter/data_object.py:639-663 | One sentence's loops produce the reconciled label, the set of its categories, and the polarities the quirky vocabulary update adds. |
| Tasks.TermPolarities | data_adapter/data_object.py:199-202 | Exactly the terms' polarities enter the vocabulary. |
| Tasks.TermCategories | data_adapter/data_object.py:1111-1114 | The label set holds exactly the terms' categories. |
| Tasks.CategoryPairs | data_adapter/data_object.py:790-795 | Pair `i` is annotation `i`'s category and polarity. |
| Tasks.CategoryNames | data_adapter/data_object.py:700-703 | Name `i` is annotation `i`'s category. |
| Tasks.CategoryVocabulary | data_adapter/data_object.py:474 | The vocabulary gains exactly the annotations' categories, never None. |
| Tasks.CategoryPolarities | data_adapter/data_object.py:475 | The vocabulary gains exactly the annotations' polarities, never None. |
| Tasks.Entity | data_adapter/data_object.py:1146 | The entity holds no `#`. It is the prefix before the first `#`, which stands right after it, or the whole category when there is no `#`. |
| Tasks.EntityBeforeFirstHash | data_adapter/data_object.py:1146 | The entity is the text before the first `#`, wherever that stands. |
| Tasks.EntityExamples | data_adapter/data_object.py:1146 | `FOOD#QUALITY` gives `FOOD`, and `AMBIENCE` gives itself. |
| Tasks.TermEntities | data_adapter/data_object.py:1145-1148 | This fails with AttributeError exactly when some term has no category. Otherwise the set holds exactly the terms' entities. |
| Tasks.AtsaStep | data_adapter/data_object.py:195-203 | A sentence without a term list raises TypeError. Otherwise the sample is the newline-free text with the terms in order, and every term's polarity enters the vocabulary. |
| Tasks.CategoryPairsStep | data_adapter/data_object.py:465-476 | A missing category list raises TypeError. A sample is dropped exactly when empty labels are dropped and the sentence has none. Otherwise the label is the annotations' pairs in order. The vocabularies gain exactly their categories and polarities. |
| Tasks.ReconciledStep | data_adapter/data_object.py:632-666 | A missing term list raises TypeError. A sentence yields no sample exactly when it has no terms. Otherwise the sample is the collapsed text with the reconciled label. The vocabularies gain the terms' categories and the quirky polarities. |
| Tasks.CategoryListStep | data_adapter/data_object.py:697-704 | A missing category list raises TypeError. Otherwise the sample is the text with newlines replaced by spaces and the category names in order. |
| Tasks.DocumentPairsStep | data_adapter/data_object.py:787-796 | A document without categories raises TypeError. Otherwise the sample is its text with the pairs, always kept. |
| Tasks.DocumentCategoryListStep | data_adapter/data_object.py:831-838 | A document without categories raises TypeError. Otherwise the sample is its text with the category names. |
| Tasks.TermCategoriesStep | data_adapter/data_object.py:1108-1115 | A missing term list raises TypeError. Otherwise the label is the set of the terms' categories, which also enters the vocabulary. |
| Tasks.EntitiesStep | data_adapter/data_object.py:1142-1149 | A missing term list raises TypeError, and a term without category raises AttributeError. Otherwise the label is the set of entities, which also enters the vocabulary. |
| Tasks.KeptPairsCount | data_adapter/data_object.py:466-477 | When empty labels are kept, every sentence becomes exactly one sample. |
| Tasks.AtsaSamples | data_adapter/data_object.py:194-204 | Every sentence becomes exactly one sample, and every sample is free of newlines. |
| Tasks.DroppedPairsSamplesLabelled | data_adapter/data_object.py:941-943 | When empty labels are dropped, every sample has a non-empty label and newline-free content. |
| Tasks.ReconciledSamplesLabelled | data_adapter/data_object.py:664-666 | Every reconciled sample has a non-empty, newline-free label that names no category twice. |
| Tasks.EntitySamples | data_adapter/data_object.py:1144-1149 | No entity label contains `#` or is None. |
| Tasks.CollectReconciled | data_adapter/data_object.py:631-667 | The sentence loops of one partition compute `DeriveDocs` with the reconciled step. |
| Tasks.GenerateAtsaData | data_adapter/data_object.py:178-212 | The method returns `Prepared` of the partitions for the ATSA step, with the inline split applied when there is no dev partition and a size is given. |
| Tasks.GenerateKeptAcdAndScData | data_adapter/data_object.py:449-483 | The method returns `Prepared` for the kept-pairs step with `generate_dev_data` (same body at 523-558). |
| Tasks.GenerateDroppedAcdAndScData | data_adapter/data_object.py:914-950 | The method returns `Prepared` for the dropped-pairs step with `generate_dev_data` (same body at 968-1004 and 1022-1058). |
| Tasks.GenerateReconciledAcdAndScData | data_adapter/data_object.py:614-673 | The method returns `Prepared` for the reconciled step with `generate_dev_data`. |
| Tasks.GenerateSentenceCategoryDetectionData | data_adapter/data_object.py:681-713 | The method returns `Prepared` for the category-list step with the inline split whenever there is no dev partition; a size of None is passed on to the split library. |
| Tasks.GenerateDocumentAcdAndScData | data_adapter/data_object.py:770-814 | The method returns `Prepared` at document level with `generate_dev_data` followed by the logging loop, which raises TypeError on an absent partition. |
| Tasks.GenerateDocumentCategoryDetectionData | data_adapter/data_object.py:816-847 | The method returns `Prepared` at document level for the category-name step with the inline split whenever there is no dev partition; a size of None is passed on to the split library. |
| Tasks.GenerateTermCategoryDetectionData | data_adapter/data_object.py:1092-1124 | The method returns `Prepared` for the term-category step with the inline split whenever there is no dev partition; a size of None is passed on to the split library. |
| Tasks.GenerateEntityDetectionData | data_adapter/data_object.py:1126-1158 | The method returns `Prepared` for the entity step with the inline split whenever there is no dev partition; a size of None is passed on to the split library. |
| Derivation.DeriveSeqFailurePersists | data_adapter/data_object.py:194-203 | Once an item raises, the whole partition fails with that error. |
| Derivation.CollectSentences | data_adapter/data_object.py:193-204 | The nested document and sentence loops compute `DeriveDocs`: samples in order, vocabulary unions, and the first error. |
| Derivation.CollectDocuments | data_adapter/data_object.py:786-797 | The document loop computes `DeriveSeq`. |
| Derivation.CollectLevel | data_adapter/data_object.py:190-204 | One partition's samples at sentence or document level. |
| Derivation.DeriveSeqCount | data_adapter/data_object.py:664-666 | There is at most one sample per item, and exactly one per item when the task keeps every item. |
| Derivation.DeriveDocsCount | data_adapter/data_object.py:664-666 | There is at most one sample per sentence, and exactly one per sentence when every sentence yields a sample. |
| Derivation.DeriveSeqAll | data_adapter/data_object.py:786-797 | A property every produced sample has holds of every sample in the partition. |
| Derivation.DeriveDocsAll | data_adapter/data_object.py:193-204 | The same for the sentences of a partition. |
| Derivation.DerivePartsStep | data_adapter/data_object.py:190-204 | Step `n` fills in only the `n`-th key, with its partition's samples, and skips an absent partition. |
| Derivation.DerivePartsShape | data_adapter/data_object.py:183-204 | Exactly the present partitions get samples, each from its own documents. |
| Derivation.SortedOptionListingUnique | data_adapter/data_object.py:479-482 | The sorted listing of an optional-string vocabulary is unique. |
| Derivation.ProducesDeterministic | data_adapter/data_object.py:183-212 | The returned samples and vocabularies are determined by the prepared partitions, including the outcome of the split. The split at line 207 has no `random_state`, so two runs of the source may still differ. The lemma does not claim they agree. |
| Derivation.FinishTask | data_adapter/data_object.py:478-483 | Builds the dev partition in `result` and returns it with both vocabularies sorted, or the first error. |
| Derivation.GenerateTask | data_adapter/data_object.py:183-212 | Derives every present partition into a fresh `result`, then builds dev and sorts the vocabularies, as `Prepared` and `Produces` state. |
| Wrappers.Get | data_adapter/data_object.py:305 | `d.get(key)` returns the value exactly when the key is present, and None otherwise. |
| Wrappers.GetOr | data_adapter/data_object.py:294 | `d.get(key, default)` returns the value when the key is present, and the default otherwise. |

## Left out

- File reads and directory listings (`file_utils`, `os.listdir`, `os.path.join`, the UTF-16-LE encoding) are I/O. The loaders take parsed tags, rows and lines.
- Weibo test files are given already paired with their `.ann` companion. The filter on names ending in `ann` (lines 331-332) and the `re.sub('txt', 'ann', …)` path rewrite (line 334) work on file names and are not modelled.
- BeautifulSoup and `csv.reader` are foreign parsers. Their output is modelled as attribute maps, texts and rows, with `find_all` in document order. Line 753 (`'target' in opinion_tag`) is modelled as membership among the element's text children, since that is what the parser's tag test examines.
- `train_test_split` is a library call with randomness. It is a `Splitter` parameter that takes the optional size (None stands for `test_size=None`) and the optional seed, and returns the two parts or nothing (nothing stands for the library's ValueError). Nothing is claimed about which samples end up where.
- `list(set)` leaves the order of a category-detection label unspecified. The label is modelled as the set itself.
- Logging and `print` are left out: lines 152 and 170, the unreachable malformed call at line 267, the row-length `print` at 1190-1191, and the log output at 799-809. Only the lines 799-809 loop's TypeError on an absent partition is kept.
- The registry `get_dataset_class_by_name` (lines 1297-1323), the `_load_data` path constants, and the pickle, json and `sentiment_path` leftovers are not modelled.
- `self.configuration['seed']` (line 324) is the `seed` parameter. A configuration without a seed would raise KeyError, which is not modelled.
- Strings.ParseInt: accepts ASCII digits only. Python's `int()` also accepts underscores between digits and non-ASCII decimal digits, which are not modelled.
- Strings.Lower: models `lower()` on ASCII letters only.
- Bdci.FinancialDocument: the test polarity is the integer `0` in the source. It is modelled as the string `"0"`, because the record's polarity is a string. The test label file is read but unused, as in the source.
- Weibo.WeiboCorpus: states the split and the presence of the partitions, not the contents of test. `Weibo.TestDocumentShape` gives those per file.
- Code repeated verbatim in the source is modelled once:
  - MAMS ACSA and SemEval-2014 restaurant `generate_acd_and_sc_data`;
  - the Chinese camera, Chinese phone and laptop subtask 1 methods;
  - the subclasses that only fix their file paths.
