# eva-submission core, modelled in Dafny

This project models the core of EBI's eva-submission tooling. An ELOAD is one submission to the European
Variation Archive (EVA). The tooling takes its metadata spreadsheet and its VCF files through these steps:
reading and validating the spreadsheet, checking samples, brokering samples to BioSamples, brokering
the analyses to ENA, following the load, and the QC and status reports. The project also models the two
small Java helpers of the repository: a comma splitter and the chromosome list read from an assembly report.
Each Dafny module models one source file. Pure logic becomes datatypes, functions and lemmas. Code that
updates state step by step becomes a method with loop invariants, or a class whose fields the methods
update. Every property is proved by the verifier. Nothing in the project is executed.

| Dafny file | module | source file |
|---|---|---|
| wrappers.dfy | Wrappers | Option and Result types |
| text.dfy | Text | string helpers (strip, split, find, prefixes) that Python and Java use |
| collections.dfy | Collections | sequence, set and map helpers |
| json.dfy | JsonValues | JSON and YAML values as the code manipulates them |
| xml_tree.dfy | XmlTree | the ElementTree look-ups used by the two ENA modules |
| string_splitter.dfy | StringSplitter | src/main/java/embl/ebi/variation/eva/StringSplitter.java |
| sequence_report_processor.dfy | SequenceReportProcessor | src/main/java/embl/ebi/variation/eva/fastadownload/SequenceReportProcessor.java |
| submission_config.dfy | SubmissionConfig | eva_submission/submission_config.py |
| config_migration.dfy | AnalysisFieldNames, ConfigMigration | eva_submission/config_migration.py |
| qc_utils.dfy | QcUtils | eva_submission/qc_utils.py |
| eload_utils.dfy | EloadUtils | eva_submission/eload_utils.py |
| eload_validation.dfy | EloadValidation | eva_submission/eload_validation.py |
| eload_status.dfy | EloadStatus | eva_submission/eload_status.py |
| eload_brokering.dfy | EloadBrokering | eva_submission/eload_brokering.py |
| samples_checker.dfy | SamplesChecker | eva_submission/samples_checker.py |
| sample_keys.dfy | SampleKeys | the top-level BioSample keys that the sample merge treats one by one |
| xlsx_parser.dfy | XlsxParser | eva_submission/xlsx/xlsx_parser.py |
| xlsx_parser_eva.dfy | XlsxParserEva | eva_submission/xlsx/xlsx_parser_eva.py |
| xlsx_validation.dfy | XlsxValidation | eva_submission/xlsx/xlsx_validation.py |
| biosamples_submitters.dfy | BioSamplesSubmitters | eva_submission/biosample_submission/biosamples_submitters.py |
| biosample_converter_utils.dfy | BioSampleConverterUtils | eva_submission/biosample_submission/biosample_converter_utils.py |
| json_to_ena_json.dfy | JsonToEnaJson | eva_submission/ENA_submission/json_to_ENA_json.py |
| upload_to_ena.dfy | UploadToEna | eva_submission/ENA_submission/upload_to_ENA.py |
| find_from_ena.dfy | FindFromEna | eva_submission/evapro/find_from_ena.py |
| split_vcf_by_taxonomy.dfy | SplitVcfByTaxonomy | eva_submission/steps/split_vcf_by_taxonomy.py |
| rename_contigs.dfy | RenameContigs | eva_submission/steps/rename_contigs_from_insdc_in_assembly.py |
| submission_in_ftp.dfy | SubmissionInFtp | eva_submission/submission_in_ftp.py |
| submission_qc_checks.dfy | SubmissionQcChecks | eva_submission/submission_qc_checks.py |
| script_writers.dfy | ScriptWriters | eva_submission/executor/script_writers.py |
| cluster_executor.dfy | ClusterExecutor | eva_submission/executor/cluster_executor.py |
| vertical_concat.dfy | VerticalConcat | submission_commons/run_vcf_vertical_concat_pipeline.py |
| json_to_xlsx.dfy | JsonToXlsx | eva_sub_cli_processing/sub_cli_to_eload_converter/json_to_xlsx_converter.py |
| load_samples.dfy | LoadSamples | bin/load_samples.py |

Errors that the Python or Java code raises are modelled as `Err` values named after the exception. These
include KeyError, IndexError, ValueError, ZeroDivisionError, IndexOutOfBoundsException and the
RecursionError of a stage loop that never shrinks. Nothing is left to a precondition when the code itself
handles the case. Files, the network, databases and the clock are modelled as parameters: lines of a
file, the answer of a query, the current time.

## Model

| member | source | states |
|---|---|---|
| StringSplitter.SplitOnCommaSpace | src/main/java/embl/ebi/variation/eva/StringSplitter.java:12-22 | the list returned is exactly the comma-separated fields trimmed as `String.trim` does, blank ones dropped, in their order |
| StringSplitter.JavaTrimFacts | src/main/java/embl/ebi/variation/eva/StringSplitter.java:16 | a trimmed field has no blank at either end and only holds characters of the field |
| StringSplitter.JavaTrimUnchanged | src/main/java/embl/ebi/variation/eva/StringSplitter.java:16 | a field with no blank at either end trims to itself |
| StringSplitter.ItemsAreClean | src/main/java/embl/ebi/variation/eva/StringSplitter.java:13-19 | every item returned is non-empty, has no blank at either end and holds no comma |
| StringSplitter.ItemsComeFromFields | src/main/java/embl/ebi/variation/eva/StringSplitter.java:13-19 | a string is an item exactly when it is non-empty and some comma field trims to it (both directions) |
| StringSplitter.SplitJoinRoundTrip | src/main/java/embl/ebi/variation/eva/StringSplitter.java:12-22 | splitting the comma-join of clean items gives the items back |
| SequenceReportProcessor.ParseChromosomeAccessions | src/main/java/embl/ebi/variation/eva/fastadownload/SequenceReportProcessor.java:33-38 | the result is the specification `Accessions`: the first column of each record after the header, or IndexOutOfBoundsException |
| SequenceReportProcessor.AccessionsShape | src/main/java/embl/ebi/variation/eva/fastadownload/SequenceReportProcessor.java:33-38 | it fails exactly on an empty report or a record without a column; otherwise one entry per record after the header, in order, duplicates kept |
| SequenceReportProcessor.HeaderIsIgnored | src/main/java/embl/ebi/variation/eva/fastadownload/SequenceReportProcessor.java:36 | whatever the header record holds, the accessions are the same |
| BioSampleConverterUtils.Lookup | eva_submission/biosample_submission/biosample_converter_utils.py:39 | `sample_mapping.get(name)`: a value found is paired with the name in the table; None only when no entry has that name |
| BioSampleConverterUtils.SampleMappingWellFormed | eva_submission/biosample_submission/biosample_converter_utils.py:3-28 | the table has distinct names, distinct targets, and no target that is itself a name |
| BioSampleConverterUtils.DistinctTargets | eva_submission/biosample_submission/biosample_converter_utils.py:3-28 | no two entries of the table share a target |
| BioSampleConverterUtils.TargetIsNoName | eva_submission/biosample_submission/biosample_converter_utils.py:3-28 | no target of the table is also a camelCase name |
| BioSampleConverterUtils.LookupIsInjective | eva_submission/biosample_submission/biosample_converter_utils.py:3-28 | in a well-formed table two names never share a target, and a target never maps onward |
| BioSampleConverterUtils.ConvertCharacteristics | eva_submission/biosample_submission/biosample_converter_utils.py:37-41 | the loop's result is a conversion: names kept unless mapped and their target absent from the original; renamed ones only under the target; nothing else appears |
| BioSampleConverterUtils.ConvertSample | eva_submission/biosample_submission/biosample_converter_utils.py:30-42 | on a copy, only `bioSampleObject.characteristics` changes, and it is converted; a sample without that dictionary fails as the subscript does |
| BioSampleConverterUtils.ConversionKeepsValues | eva_submission/biosample_submission/biosample_converter_utils.py:37-41 | renaming keeps the set of characteristic values: nothing is lost or invented |
| BioSampleConverterUtils.ExistingTargetBlocksRename | eva_submission/biosample_submission/biosample_converter_utils.py:39 | a characteristic whose target name is already present is left alone, and so is the target |
| BioSampleConverterUtils.ConversionIsIdempotent | eva_submission/biosample_submission/biosample_converter_utils.py:37-41 | after conversion nothing is left to rename, so converting again changes nothing |
| QcUtils.RemoveChar | eva_submission/qc_utils.py:75 | `replace(c, "")` leaves no `c` and keeps every other character that was there, and only those |
| QcUtils.FinalStatusWithoutRelevant | eva_submission/qc_utils.py:69-79 | a log with no launch or completion line of the job leaves the status FAILED |
| QcUtils.FinalStatusIsLastRelevant | eva_submission/qc_utils.py:71-75 | the last launch or completion line decides the status: "" after a launch, the bracket-stripped last word after a completion |
| QcUtils.DidJobCompleteSuccessfully | eva_submission/qc_utils.py:67-82 | an unknown job type raises KeyError; otherwise the answer is true exactly when the final status of the scan is COMPLETED |
| QcUtils.FailedNameWithoutMarker | eva_submission/qc_utils.py:87-93 | with no "Encountered an error executing step" line the name is the default text |
| QcUtils.FailedNameErr | eva_submission/qc_utils.py:89-91 | the scan fails (`rindex` raises ValueError) exactly when some step-error line has no "in job" after the marker |
| QcUtils.FailedNameIsLastMarker | eva_submission/qc_utils.py:88-91 | on success the name comes from the last step-error line of the log |
| QcUtils.FailedJobOrStepName | eva_submission/qc_utils.py:85-93 | the loop computes the scan of the log, error included |
| QcUtils.FailedNameStops | eva_submission/qc_utils.py:88-91 | once a line has raised, the lines after it change nothing |
| SubmissionConfig.SetIn | eva_submission/submission_config.py:45-50 | a successful walk of `set` yields a dictionary |
| SubmissionConfig.SetInThenGet | eva_submission/submission_config.py:43-50 | after `set`, the path reads back the value, and every path below it reads what the value holds |
| SubmissionConfig.SetInKeepsOthers | eva_submission/submission_config.py:43-50 | `set` leaves every path that parts ways with its own unchanged |
| SubmissionConfig.SetInFails | eva_submission/submission_config.py:46-50 | `set` raises exactly when some proper prefix of the path leads to a value that is not a dictionary |
| SubmissionConfig.SetInCreates | eva_submission/submission_config.py:47-48 | a missing intermediate key becomes a dictionary holding just the written key |
| SubmissionConfig.SetInUpdates | eva_submission/submission_config.py:46-50 | a `set` one key below an existing value succeeds only when that value is a dictionary, which then gains the key and is otherwise unchanged |
| SubmissionConfig.PopInResult | eva_submission/submission_config.py:52-59 | `pop` returns what the path held, else the default, and afterwards the path holds nothing |
| SubmissionConfig.PopInMissing | eva_submission/submission_config.py:55-59 | `pop` on a path that does not exist returns the default and changes nothing |
| SubmissionConfig.PopInKeepsOthers | eva_submission/submission_config.py:52-59 | `pop` removes only the leaf: every path parting ways with it reads the same |
| SubmissionConfig.SetPathOutside | eva_submission/submission_config.py:43-50 | `set` touches only the top-level key its path starts with, and that key then exists |
| SubmissionConfig.PopPathOutside | eva_submission/submission_config.py:52-59 | a nested `pop` touches only its top-level key and removes no top-level key |
| SubmissionConfig.PopPathNested | eva_submission/submission_config.py:54-59 | a two-key `pop` below an existing key succeeds exactly when that key holds a dictionary, which stays |
| SubmissionConfig.VersionStamp | eva_submission/submission_config.py:67-70 | an empty configuration gets the version on its first write; a non-empty one is left as it is |
| SubmissionConfig.BackupNameInjective | eva_submission/submission_config.py:29-35 | distinct suffixes give distinct backup names |
| SubmissionConfig.BackupNameNotFile | eva_submission/submission_config.py:29-36 | no backup name is the configuration file itself |
| SubmissionConfig.EloadConfig.constructor | eva_submission/submission_config.py:13-20 | a configuration starts empty, bound to its file |
| SubmissionConfig.EloadConfig.Clear | eva_submission/submission_config.py:64-65 | `clear` empties the content and keeps the file |
| SubmissionConfig.EloadConfig.SetVersion | eva_submission/submission_config.py:67-70 | `_set_version` stamps the version only on empty content |
| SubmissionConfig.EloadConfig.SetItem | eva_submission/submission_config.py:75-78 | `config[item] = value` stamps the version, then the key reads back the value |
| SubmissionConfig.EloadConfig.Set | eva_submission/submission_config.py:43-50 | `set` stamps the version then writes the path; on TypeError only the stamp has happened; on success the path reads back the value |
| SubmissionConfig.EloadConfig.Pop | eva_submission/submission_config.py:52-59 | `pop` returns the old value or the default and removes it; a missing path leaves the content as it was; errors change nothing |
| SubmissionConfig.EloadConfig.Backup | eva_submission/submission_config.py:22-36 | with no configuration file nothing moves; otherwise, for the first free suffix n, backups 1..n-1 move up by one and the file becomes `.1`, every other file untouched |
| SubmissionConfig.FirstFreeSuffix | eva_submission/submission_config.py:28-32 | the loop stops at the first suffix with no file, all lower suffixes being taken |
| SubmissionConfig.RotateBackups | eva_submission/submission_config.py:34-36 | the renames from n down to 2 and then of the file produce the rotation, file contents carried along |
| SubmissionConfig.ShiftNamesApart | eva_submission/submission_config.py:35 | the two names one rename step touches differ from each other, from the file and from every other backup |
| ConfigMigration.AliasFromMetadata | eva_submission/config_migration.py:52-70 | an alias is found exactly when a metadata spreadsheet is configured and holds exactly one analysis, and it is that analysis's alias; otherwise ValueError |
| ConfigMigration.PopSubmissionField | eva_submission/config_migration.py:25-28 | one field popped from `submission`: its old value (None when missing) comes back, it is gone, every other field and section is untouched; a non-dictionary `submission` fails and changes nothing |
| ConfigMigration.PopAnalysisData | eva_submission/config_migration.py:24-29 | the four fields come back as the `analysis_data` dictionary of their old values, and none of them is left in `submission` |
| ConfigMigration.UpgradeSubmission | eva_submission/config_migration.py:24-31 | `submission.analyses` becomes `{alias: analysis_data}` and the four old fields are gone; only the `submission` section changes |
| ConfigMigration.UpgradeValidation | eva_submission/config_migration.py:33-35 | `validation.valid.vcf_files` is gone and `validation.valid.analyses` holds the analyses; only `validation` changes |
| ConfigMigration.MoveBrokeredVcfs | eva_submission/config_migration.py:38-44 | the brokered VCFs move under `brokering.analyses.<alias>.vcf_files`, the rest of the analysis data copied; missing or non-dictionary `vcf_files` raises AttributeError |
| ConfigMigration.KeyAccessionByAlias | eva_submission/config_migration.py:45-46 | the ENA analysis accession (None when missing) is re-keyed by the alias; the rest of `brokering` is unchanged |
| ConfigMigration.UpgradeBrokering | eva_submission/config_migration.py:37-46 | both brokering moves together, only `brokering` changing, AttributeError on missing brokered VCFs |
| ConfigMigration.UpgradeVersion01 | eva_submission/config_migration.py:12-49 | no `submission` or no alias raises ValueError with the configuration untouched; success leaves every section that existed upgraded and records the current version |
| XlsxParser.SetCell | eva_submission/xlsx/xlsx_parser.py:232 | `worksheet.cell(row, column, value)` grows the sheet to that row when needed, makes the cell read back the value when the value is not `None`, leaves the cell as it was when the value is `None` (openpyxl does not assign `None`), and changes no other cell |
| XlsxParser.HeaderNames | eva_submission/xlsx/xlsx_parser.py:99-100 | the header row keeps one entry per cell, None for an empty cell and the stripped text otherwise; a non-text value fails as `.strip()` does |
| XlsxParser.ValidTitlesMembers | eva_submission/xlsx/xlsx_parser.py:76-108 | a worksheet is valid exactly when it is configured, exists, has a row below its header row, and its header row holds every required header |
| XlsxParser.ScanWorksheets | eva_submission/xlsx/xlsx_parser.py:85-108 | the loop returns the valid worksheets; every valid one is configured, present and has its headers recorded; each present one has its header row recorded; `valid` turns false exactly when some listed worksheet lacks a required header |
| XlsxParser.ValidTitlesStopsAtError | eva_submission/xlsx/xlsx_parser.py:88-106 | once a header row raises, the later worksheets change nothing |
| XlsxParser.HeaderIndex | eva_submission/xlsx/xlsx_parser.py:178-180 | `headers.index(h)`: the first position holding h, or the row length when h is absent, which the callers treat as a missing column |
| XlsxParser.FirstDataRow | eva_submission/xlsx/xlsx_parser.py:170-196 | a data row found lies between the cursor and the last row |
| XlsxParser.FirstDataRowIsFirst | eva_submission/xlsx/xlsx_parser.py:170-198 | the row `next` returns is the first from the cursor on with a value under a configured header; with none, every row left is empty and StopIteration follows |
| XlsxParser.ReadFromFacts | eva_submission/xlsx/xlsx_parser.py:163-198 | one read gives the next data row and leaves the offset on it, the rest of the data rows following; at the end the offset is past the last row |
| XlsxParser.ReadAll | eva_submission/xlsx/xlsx_parser.py:170-198 | repeated reads return exactly the data rows from the start row on, in order |
| XlsxParser.ScanFrom | eva_submission/xlsx/xlsx_parser.py:170-198 | the scan behind `next` stops on the first row from the start that holds a value, tagged with its row number and leaving the offset on it, or ends past the last row with StopIteration |
| XlsxParser.MissingHeaderReadsNone | eva_submission/xlsx/xlsx_parser.py:178-183 | a configured header absent from the header row reads None |
| XlsxParser.PresentHeaderReadsColumn | eva_submission/xlsx/xlsx_parser.py:179-189 | a configured header present in the header row reads the cell of its column |
| XlsxParser.ReadRow | eva_submission/xlsx/xlsx_parser.py:171-189 | the loop over the headers builds the row's data and notes whether any value is set |
| XlsxParser.EditedRowKeepsOtherRows | eva_submission/xlsx/xlsx_parser.py:216-241 | `edit_row` writes only into row `row_num` |
| XlsxParser.EditedRowFailures | eva_submission/xlsx/xlsx_parser.py:221-231 | a missing `row_num` raises KeyError; a required header without a value raises |
| XlsxParser.WriteRequiredMissingFails | eva_submission/xlsx/xlsx_parser.py:228-231 | a required header missing from the header row or from the data stops the edit with an error |
| XlsxParser.WriteOptionalKeepsCell | eva_submission/xlsx/xlsx_parser.py:234-241 | optional writes to other columns leave a cell holding what the required write of its value left there (the value, or the earlier content when the value is `None`) as it is |
| XlsxParser.WriteRequiredStores | eva_submission/xlsx/xlsx_parser.py:228-232 | after the required loop succeeds, each required header is in the header row and the data, and its column holds the value, or its earlier content when the value is `None` |
| XlsxParser.EditedRowStoresRequired | eva_submission/xlsx/xlsx_parser.py:216-241 | a successful `edit_row` leaves every required value (or, for a `None` value, the cell's earlier content) in its column of row `row_num`, the optional writes not disturbing it |
| XlsxParser.RowsWrittenPlacesRows | eva_submission/xlsx/xlsx_parser.py:251-254 | a successful `set_rows` puts the i-th row's required values in spreadsheet row `header_row + 1 + i`; a `None` value leaves that cell's earlier content |
| XlsxParser.RowsWrittenKeepsRow | eva_submission/xlsx/xlsx_parser.py:251-254 | `set_rows` leaves the rows above its first row, the header row included, alone |
| XlsxParser.XlsxParser.constructor | eva_submission/xlsx/xlsx_parser.py:42-61 | a parser starts with no worksheets computed, no active worksheet, no offsets, no headers and validity unknown |
| XlsxParser.XlsxParser.ValidWorksheets | eva_submission/xlsx/xlsx_parser.py:76-108 | a cached list is returned as it is; otherwise the scan's result is returned and cached, with headers recorded and `valid` set false when a listed worksheet is invalid |
| XlsxParser.XlsxParser.SetActiveWorksheet | eva_submission/xlsx/xlsx_parser.py:67-74 | the active worksheet becomes one of the valid ones, and a worksheet outside them raises ValueError leaving it as it was |
| XlsxParser.XlsxParser.IsValid | eva_submission/xlsx/xlsx_parser.py:117-127 | a known answer is returned as it is; otherwise the answer is true exactly when no listed worksheet lacks a required header |
| XlsxParser.XlsxParser.Next | eva_submission/xlsx/xlsx_parser.py:151-198 | with no active worksheet, StopIteration and nothing changes; otherwise the next data row after the cursor, tagged with its number, and the cursor of that worksheet alone moves |
| XlsxParser.XlsxParser.GetRows | eva_submission/xlsx/xlsx_parser.py:145-198 | iterating to StopIteration yields exactly the data rows from the cursor on, and leaves the cursor past the last row |
| XlsxParser.XlsxParser.EditRow | eva_submission/xlsx/xlsx_parser.py:216-241 | no active worksheet raises ValueError; otherwise only that worksheet changes, as the header-by-header edit says, and the call fails exactly when the edit does |
| XlsxParser.XlsxParser.SetRows | eva_submission/xlsx/xlsx_parser.py:243-254 | no active worksheet raises ValueError; otherwise the rows are edited in turn from the row after the header row, only that worksheet changing |
| XlsxParser.RowsWrittenSteps | eva_submission/xlsx/xlsx_parser.py:252-254 | editing the rows one by one, each tagged with the row number it goes to, stops at the first failing edit and otherwise yields the grid with every row written |
| XlsxParser.EditRowSteps | eva_submission/xlsx/xlsx_parser.py:221-241 | the two loops of `edit_row` compute the header-by-header edit |
| XlsxParser.WriteRequiredSteps | eva_submission/xlsx/xlsx_parser.py:228-232 | the loop over the required headers computes their writes, stopping at the first error |
| XlsxParser.WriteOptionalSteps | eva_submission/xlsx/xlsx_parser.py:234-241 | the loop over the optional headers computes their writes, blanking missing values when asked |
| XlsxParserEva.StripAll | eva_submission/xlsx/xlsx_parser_eva.py:77-79 | each alias of the split is stripped, one for one |
| XlsxParserEva.TaggedMembers | eva_submission/xlsx/xlsx_parser_eva.py:77-79 | the pairs added for one row pair that row with each of its aliases, and with nothing else |
| XlsxParserEva.SamplesPerAnalysis | eva_submission/xlsx/xlsx_parser_eva.py:73-80 | a row whose alias cell is not text fails as `.split` does; otherwise each row is appended, in row order, to the list of every alias it names |
| XlsxParserEva.AppendUnderAliases | eva_submission/xlsx/xlsx_parser_eva.py:77-79 | the inner loop appends the row under each of its aliases in turn |
| XlsxParserEva.AliasPairsMembers | eva_submission/xlsx/xlsx_parser_eva.py:76-79 | a row is paired with an alias exactly when it is one of the rows and names that alias once stripped |
| XlsxParserEva.SamplesListedUnderTheirAliases | eva_submission/xlsx/xlsx_parser_eva.py:73-80 | a row is listed under an alias exactly when it names that alias |
| XlsxParserEva.AliasPairsStopsAtError | eva_submission/xlsx/xlsx_parser_eva.py:76-79 | a failing row fails the whole grouping, whatever follows |
| XlsxParserEva.FilesPerAnalysis | eva_submission/xlsx/xlsx_parser_eva.py:82-87 | the loop groups the rows by their exact alias value, in row order |
| XlsxParserEva.FilesGroupedByAlias | eva_submission/xlsx/xlsx_parser_eva.py:82-87 | an alias has a group exactly when some row carries it, and the group is exactly those rows, in order |
| XlsxParserEva.References | eva_submission/xlsx/xlsx_parser_eva.py:69-71 | a value is a reference exactly when some analysis carries it and it is truthy |
| XlsxParserEva.Destination | eva_submission/xlsx/xlsx_parser_eva.py:92-99 | the writer saves to the destination given when it is non-empty, otherwise over the source |
| SamplesChecker.SamplesFromVcfLines | eva_submission/samples_checker.py:13-31 | the scan returns the samples of the first `#CHROM` line, the fields after the ninth tab, or none |
| SamplesChecker.HeaderSamplesFromFirstHeader | eva_submission/samples_checker.py:22-31 | only the first `#CHROM` line counts: later lines never change the result |
| SamplesChecker.GetSampleNames | eva_submission/samples_checker.py:50-63 | the loop keeps one name per named row, in row order, skipping rows with neither a name nor an ID |
| SamplesChecker.SampleNamesPreferName | eva_submission/samples_checker.py:55-59 | a name is listed exactly when some row has it as a truthy Sample Name, or as a truthy Sample ID without a Sample Name |
| SamplesChecker.SampleNamesAreCellTruthy | eva_submission/samples_checker.py:56-58 | every listed name is truthy |
| SamplesChecker.CompareNames | eva_submission/samples_checker.py:66-96 | the two differences are the VCF samples not in the sheet and the sheet's names not in the VCFs, and a difference is flagged exactly when either is non-empty |
| SamplesChecker.NoDifferenceIffSameNames | eva_submission/samples_checker.py:79-93 | no difference is flagged exactly when the sheet and the VCFs name the same samples |
| SamplesChecker.IsVcfRowMatchesVcfName | eva_submission/samples_checker.py:104-106 | a file row is a VCF exactly when its type is 'vcf' or its name ends in `.vcf` or `.vcf.gz` |
| SamplesChecker.VcfFilePaths | eva_submission/samples_checker.py:99-107 | one joined path per VCF row, in order; the join raises exactly when a VCF row's name is not text |
| SamplesChecker.RegroupedUnderNone | eva_submission/samples_checker.py:118-122 | when the samples carry no alias at all, the missing alias holds every sample and every file |
| SamplesChecker.CompareSpreadsheetAndVcf | eva_submission/samples_checker.py:110-135 | one comparison per alias of the regrouped samples, each that alias's comparison; the call fails exactly when one of them does |
| XlsxValidation.Texts | eva_submission/xlsx/xlsx_validation.py:208-209 | `cast_list` turns each value into its text, one for one |
| XlsxValidation.Without | eva_submission/xlsx/xlsx_validation.py:208-209 | the values of one list that are not in the other |
| XlsxValidation.OnlyIn | eva_submission/xlsx/xlsx_validation.py:208-209 | `set(a).difference(b)`: each value of a missing from b, listed once |
| XlsxValidation.SameSetErrorsMeaning | eva_submission/xlsx/xlsx_validation.py:206-215 | no message exactly when the two lists hold the same values; otherwise one message giving each side's missing values sorted as text, at least one side non-empty |
| XlsxValidation.RepeatErrorsMembers | eva_submission/xlsx/xlsx_validation.py:78-81 | an alias is reported with a count exactly when it is counted and the count is its number of occurrences, above one |
| XlsxValidation.RepeatErrorsEmpty | eva_submission/xlsx/xlsx_validation.py:78-81 | the counting pass reports nothing exactly when every counted alias occurs at most once |
| XlsxValidation.CountAboveOne | eva_submission/xlsx/xlsx_validation.py:77 | an alias counted more than once occurs at two positions, and conversely |
| XlsxValidation.DuplicateAliasErrorsMeaning | eva_submission/xlsx/xlsx_validation.py:75-81 | an alias is reported exactly when it occurs more than once, with its count; nothing is reported exactly when the aliases are distinct |
| XlsxValidation.GroupValues | eva_submission/xlsx/xlsx_validation.py:202 | one list of values per group |
| XlsxValidation.FieldGroupErrors | eva_submission/xlsx/xlsx_validation.py:194-204 | no message exactly when some group is all filled; KeyError exactly when none is and some field is absent from the row |
| XlsxValidation.MonthValueRange | eva_submission/xlsx/xlsx_validation.py:232-247 | an accepted month is 1 to 12 |
| XlsxValidation.DayValueRange | eva_submission/xlsx/xlsx_validation.py:232-247 | an accepted day is 1 to 31 |
| XlsxValidation.DateParts | eva_submission/xlsx/xlsx_validation.py:232-247 | a string `strptime` accepts as `%Y-%m-%d`, `%Y-%m` or `%Y` denotes a real calendar date of years 1 to 9999 |
| XlsxValidation.CheckDateErrors | eva_submission/xlsx/xlsx_validation.py:223-230 | a missing required date gives exactly one missing message; a present value gives no message exactly when it is a date; non-text values raise as `strptime` does |
| XlsxValidation.DateFormatExamples | eva_submission/xlsx/xlsx_validation.py:232-247 | the three accepted forms pass and two comma-joined dates do not |
| XlsxValidation.CheckDateValueExamples | eva_submission/xlsx/xlsx_validation.py:217-221 | a not-provided term passes in any letter case; a number is not a date string |
| XlsxValidation.LeapDayExamples | eva_submission/xlsx/xlsx_validation.py:232-236 | February 29th is a date only in a leap year |
| XlsxValidation.Column | eva_submission/xlsx/xlsx_validation.py:75 | `[row[key] for row in rows]`: KeyError exactly when some row lacks the key, else the column in order |
| XlsxValidation.StrCells | eva_submission/xlsx/xlsx_validation.py:84 | the stripped sample aliases as text cells, one for one |
| XlsxValidation.SampleChecksReportGroups | eva_submission/xlsx/xlsx_validation.py:92-98 | each sample row without a filled group gets its field-group message |
| XlsxValidation.SampleChecksExtends | eva_submission/xlsx/xlsx_validation.py:92-101 | the per-row checks only append messages |
| XlsxValidation.SampleChecksStopAtRaise | eva_submission/xlsx/xlsx_validation.py:92-101 | when no row raises, every row passed its checks without an exception |
| XlsxValidation.EvaXlsxValidator.constructor | eva_submission/xlsx/xlsx_validation.py:34 | a validator starts with no messages |
| XlsxValidation.EvaXlsxValidator.SameSet | eva_submission/xlsx/xlsx_validation.py:206-215 | `same_set` appends exactly the messages the comparison gives |
| XlsxValidation.EvaXlsxValidator.GroupOfFieldsRequired | eva_submission/xlsx/xlsx_validation.py:194-204 | appends the field-group message when due; KeyError appends nothing |
| XlsxValidation.EvaXlsxValidator.CheckDate | eva_submission/xlsx/xlsx_validation.py:223-230 | appends the date messages when due; an exception appends nothing |
| XlsxValidation.EvaXlsxValidator.CheckDuplicateAliases | eva_submission/xlsx/xlsx_validation.py:77-81 | appends one message per alias seen more than once |
| XlsxValidation.EvaXlsxValidator.ComplexValidation | eva_submission/xlsx/xlsx_validation.py:70-101 | appends the messages of the cross-sheet checks then of the per-row checks, and raises where they first raise |
| XlsxValidation.EvaXlsxValidator.CrossSheetChecks | eva_submission/xlsx/xlsx_validation.py:75-90 | the duplicate-alias and the three same-set checks, in order |
| XlsxValidation.EvaXlsxValidator.CheckSamples | eva_submission/xlsx/xlsx_validation.py:92-101 | the loop over the sample rows appends their messages, stopping at the first exception |
| XlsxValidation.EvaXlsxValidator.CheckSampleRow | eva_submission/xlsx/xlsx_validation.py:93-101 | one row's field groups, then its collection date when it is novel or has one |
| ScriptWriters.ArmsPointwise | eva_submission/executor/script_writers.py:61-66 | arm i of the job array is numbered i+1, runs the i-th command, and logs to `log_file + (i+1)` when commands are logged |
| ScriptWriters.ArrayBlockArms | eva_submission/executor/script_writers.py:57-68 | a job array is the `case` line, one arm per command numbered from 1, the fallback arm and `esac` |
| ScriptWriters.ArmLineStarts | eva_submission/executor/script_writers.py:75 | an arm line starts with its number, `) ` and the command |
| ScriptWriters.SortedKeys | eva_submission/executor/script_writers.py:102 | `sorted(d)`: each key of the dictionary exactly once, in ascending order |
| ScriptWriters.ParamLinesFacts | eva_submission/executor/script_writers.py:102-104 | the header lines follow the keys one for one, each the key's template filled with its value; KeyError exactly when some key has no template |
| ScriptWriters.ParamLinesOk | eva_submission/executor/script_writers.py:102-104 | the parameter lines fail with KeyError exactly when some key has no template |
| ScriptWriters.HeaderExists | eva_submission/executor/script_writers.py:99-106 | the header can be built exactly when every parameter has a template in the writer's mapping |
| ScriptWriters.HeaderLines | eva_submission/executor/script_writers.py:101-106 | the header is the shebang, one line per parameter in sorted key order, a blank, `cd <working_dir>` and a blank |
| ScriptWriters.ParamLineAt | eva_submission/executor/script_writers.py:102-104 | line i of the parameter lines renders key i |
| ScriptWriters.ParamLinesStopsAtError | eva_submission/executor/script_writers.py:102-104 | a key without a template makes the whole header raise KeyError |
| ScriptWriters.SavedTextSplitsBack | eva_submission/executor/script_writers.py:94-97 | the saved text, split on newlines, gives back the lines and an empty rest, when no line holds a newline |
| ScriptWriters.ScriptWriter.constructor | eva_submission/executor/script_writers.py:27-40 | the keyword arguments plus job name, queue (the configured one when none or empty is given) and log file `<working_dir>/<job_name>.log` become the parameters; the script is `<working_dir>/<job_name><suffix>`; no lines yet |
| ScriptWriters.ScriptWriter.AddLine | eva_submission/executor/script_writers.py:81-82 | the line is appended |
| ScriptWriters.ScriptWriter.LineBreak | eva_submission/executor/script_writers.py:91-92 | an empty line is appended |
| ScriptWriters.ScriptWriter.RegisterCmd | eva_submission/executor/script_writers.py:42-45 | the command is appended, redirected to its log file when one is given |
| ScriptWriters.ScriptWriter.RegisterCmds | eva_submission/executor/script_writers.py:47-51 | serial commands are appended as they are; parallel ones become the job array |
| ScriptWriters.ScriptWriter.StartArray | eva_submission/executor/script_writers.py:84-85 | the `case` line on the writer's array index is appended |
| ScriptWriters.ScriptWriter.FinishArray | eva_submission/executor/script_writers.py:87-89 | the fallback arm and `esac` are appended |
| ScriptWriters.ScriptWriter.RegisterArrayCmd | eva_submission/executor/script_writers.py:70-79 | the numbered arm running the command, logged when asked, is appended |
| ScriptWriters.ScriptWriter.RegisterArrayCmds | eva_submission/executor/script_writers.py:61-66 | the loop appends the arms of all commands, in order |
| ScriptWriters.ScriptWriter.AddJobArray | eva_submission/executor/script_writers.py:53-68 | a second array raises ExecutorError; one command is appended as it is; several become an array and `jobs` records their number |
| ScriptWriters.ScriptWriter.AddArrayBlock | eva_submission/executor/script_writers.py:60-66 | several commands append the array opening, one numbered line per command with its own log file when commands are logged, and the array closing; the parameters stay as they were |
| ScriptWriters.ScriptWriter.Save | eva_submission/executor/script_writers.py:94-97 | the text written is the lines joined by newlines, plus a final newline |
| ScriptWriters.ScriptWriter.FormatParams | eva_submission/executor/script_writers.py:102-104 | the loop renders each key's header line in turn, KeyError at the first without a template |
| ScriptWriters.ScriptWriter.AddHeader | eva_submission/executor/script_writers.py:99-109 | the header is prepended to the lines; KeyError leaves the lines as they were |
| ScriptWriters.SortKeys | eva_submission/executor/script_writers.py:102 | the keys come out sorted, each once |
| ClusterExecutor.FinishedWhenAllFinished | eva_submission/executor/cluster_executor.py:75-84 | the job is finished exactly when every state is a finished one |
| ClusterExecutor.FinishedDecidedAt | eva_submission/executor/cluster_executor.py:77-83 | otherwise the first state that is not finished decides: false when it is unfinished, ExecutorError naming it when it is unknown |
| ClusterExecutor.FinishedOrderFree | eva_submission/executor/cluster_executor.py:75-84 | when every state is known, the answer does not depend on the order the set yields them |
| ClusterExecutor.RetriedMeaning | eva_submission/executor/cluster_executor.py:96-103 | at most `retry` runs are made; the answer is the stripped output of the first run that succeeded after only failed ones, or None when all failed |
| ClusterExecutor.SlurmJobId | eva_submission/executor/cluster_executor.py:146-149 | the job id is the last word `sbatch` printed; IndexError when it printed none |
| ClusterExecutor.JobStates | eva_submission/executor/cluster_executor.py:151-164 | once the job has left the queue, no accounting state keeps a trailing `+` |
| ClusterExecutor.CancelledStepFails | eva_submission/executor/cluster_executor.py:175-177 | a cancelled step never counts as exit code 0 |
| ClusterExecutor.StepErrors | eva_submission/executor/cluster_executor.py:171-174 | the only error a report line raises is ValueError |
| ClusterExecutor.SumCodesAll | eva_submission/executor/cluster_executor.py:167-182 | the sum succeeds exactly when every line does, and on non-negative codes it is 0 exactly when every code is |
| ClusterExecutor.SumCodesErrors | eva_submission/executor/cluster_executor.py:170-178 | an error of the sum is the ValueError of one of the lines |
| ClusterExecutor.SumMapOrderFree | eva_submission/executor/cluster_executor.py:170-178 | summing the same lines in another order gives the same result |
| ClusterExecutor.ExitStatusOrderFree | eva_submission/executor/cluster_executor.py:166-182 | the exit status does not depend on the order the set of report lines is iterated |
| ClusterExecutor.SlurmExecutor.constructor | eva_submission/executor/cluster_executor.py:25-34 | the executor keeps the commands and job name, has no job id, and a fresh Slurm writer with no lines |
| ClusterExecutor.SlurmExecutor.WriteBody | eva_submission/executor/cluster_executor.py:37-44 | the preliminary commands, `source` of the environment file when there is one, and a blank line are appended |
| ClusterExecutor.SlurmExecutor.ArrayAndHeader | eva_submission/executor/cluster_executor.py:45-46 | the commands as one array (a single command as it is), then the header with `jobs` set; a second array raises ExecutorError |
| ClusterExecutor.SlurmExecutor.WriteScript | eva_submission/executor/cluster_executor.py:36-47 | the script is header, earlier lines, body and array, and the saved text is those lines |
| ClusterExecutor.SlurmExecutor.RunAndRetry | eva_submission/executor/cluster_executor.py:96-103 | the retry loop returns the first successful output among the first `retry` runs, or None |
| ClusterExecutor.SlurmExecutor.SubmitJob | eva_submission/executor/cluster_executor.py:146-149 | no successful `sbatch` in three tries raises ExecutorError and leaves no job id; otherwise the job id is the last word printed |
| ClusterExecutor.SlurmExecutor.JobFinished | eva_submission/executor/cluster_executor.py:75-84 | the loop over the states gives the finished verdict with the Slurm lists of states |
| ClusterExecutor.SlurmExecutor.JobExitCode | eva_submission/executor/cluster_executor.py:166-182 | the loop over the `sacct` lines gives the summed exit status, cancelled steps counting 9 |
| EloadUtils.IsVcfFileShape | eva_submission/eload_utils.py:95-96 | a path is a VCF exactly when it ends in `.vcf` or `.vcf.gz`; the empty path is not |
| EloadUtils.CheckProjectFormatShape | eva_submission/eload_utils.py:167-168 | an accession matches exactly when it starts with PRJEB or PRJNA |
| EloadUtils.AggregationOfCases | eva_submission/eload_utils.py:229-235 | 'none' exactly when there are samples all with genotypes; 'basic' exactly when there are no samples and frequencies are in INFO; otherwise undetermined |
| EloadUtils.AfInInfoAsWrittenAlwaysHolds | eva_submission/eload_utils.py:257 | the frequency test as written holds for every INFO field, `find` being -1 or a position |
| EloadUtils.AfInInfoCounterexample | eva_submission/eload_utils.py:257 | an INFO field `DP=3` passes the test as written and fails the intended one |
| EloadUtils.AssessLinesStops | eva_submission/eload_utils.py:250-257 | a line that raises ends the reading, whatever follows |
| EloadUtils.AssessVcfAggregationManualAsWritten | eva_submission/eload_utils.py:238-262 | the reading as written reads every line, the counter never moving, with the frequency test as written |
| EloadUtils.AsWrittenAfAlwaysSet | eva_submission/eload_utils.py:248-257 | after the reading as written, the frequency flag is always set |
| EloadUtils.AsWrittenSamplelessIsBasic | eva_submission/eload_utils.py:229-257 | so any readable VCF without samples is classified 'basic' by the manual reading as written |
| EloadUtils.LineLimitIgnored | eva_submission/eload_utils.py:245-259 | after ten data lines that carry GT, an eleventh line without a FORMAT column still clears the GT flag in the reading as written, while the intended reading stops before it and keeps the flag |
| EloadUtils.WindowStopsBefore | eva_submission/eload_utils.py:245-259 | with the counter kept as intended, the reading stops at the line that completes the tenth data line and never reads a further one |
| EloadUtils.AsWrittenReadsOn | eva_submission/eload_utils.py:245-259 | the reading as written goes on past any number of lines, and a further data line without a FORMAT column clears the GT flag |
| EloadUtils.WindowAll | eva_submission/eload_utils.py:258-259 | with fewer data lines than the limit, the whole file is read |
| EloadUtils.WindowCut | eva_submission/eload_utils.py:258-259 | otherwise the reading stops right after the line that reaches the limit |
| EloadUtils.AssessVcfAggregationManual | eva_submission/eload_utils.py:238-262 | the intended reading stops after the tenth data line and searches INFO for AF, or AC and AN |
| EloadUtils.DetectVcfAggregation | eva_submission/eload_utils.py:211-235 | the pysam reading when it succeeds, else the intended manual reading (the first ten data lines, AF or AC and AN in INFO), classified; undetermined when both fail |
| EloadUtils.DetectVcfAggregationAsWritten | eva_submission/eload_utils.py:220-235 | the same with the manual reading as written (every line, a frequency test that always holds); a readable VCF without samples is then always 'basic' |
| EloadUtils.ReportLines | eva_submission/eload_utils.py:302-309 | the report is the comment line, the column line, and one line per contig |
| EloadUtils.CreateAssemblyReportFromFasta | eva_submission/eload_utils.py:282-310 | the report lies next to the FASTA as `<stem>_assembly_report.txt` and holds one row per contig of the FASTA |
| EloadUtils.ContigsInFasta | eva_submission/eload_utils.py:287-301 | the loop gathers each header's name with the summed stripped lengths of its sequence lines, skipping empty names |
| EloadUtils.ReadFastaLine | eva_submission/eload_utils.py:293-299 | one turn of the loop keeps the contigs still to come the same: a header closes the current contig, a sequence line adds its length |
| EloadUtils.ContigNameHasNoTab | eva_submission/eload_utils.py:297 | a contig name is a whitespace-free word, so it holds no tab |
| EloadUtils.ContigsComeFromHeaders | eva_submission/eload_utils.py:293-301 | every contig reported is non-empty and named after a header line of the FASTA |
| EloadUtils.ReportRowColumns | eva_submission/eload_utils.py:309 | a report row splits back into ten columns with the contig name in GenBank-Accn and its length in Sequence-Length |
| EloadStatus.ProjectInformationLoop | eva_submission/eload_status.py:206-218 | the loop over the query rows yields the grouping of consecutive rows by analysis |
| EloadStatus.GroupsWellFormed | eva_submission/eload_status.py:209-218 | when every row names an analysis, every group does, and consecutive groups differ in analysis |
| EloadStatus.GroupsKeepFiles | eva_submission/eload_status.py:209-218 | when every row names an analysis, the groups hold all the rows' files, in row order |
| EloadStatus.NoRowsOneEmptyGroup | eva_submission/eload_status.py:207-218 | without rows, one group with no analysis, assembly, taxonomy or file is yielded |
| EloadStatus.AccessionFile | eva_submission/eload_status.py:259-265 | the file name without `.vcf.gz` or `.vcf` (empty otherwise), followed by `.accessioned.vcf.gz ` with its trailing space |
| EloadStatus.Matching | eva_submission/eload_status.py:242-246 | the list comprehension keeps exactly the reports passing the test |
| EloadStatus.ReportName | eva_submission/eload_status.py:259-265 | the intended accessioned name is the one built with its trailing space dropped |
| EloadStatus.SelectReport | eva_submission/eload_status.py:236-256 | the report chosen is one of those found, and there is none exactly when none was found |
| EloadStatus.SelectReportByFile | eva_submission/eload_status.py:242-244 | when exactly one report is named after one of the analysis' files, that report is chosen |
| EloadStatus.MatchingOnly | eva_submission/eload_status.py:242-246 | when exactly one report passes, it alone is kept |
| EloadStatus.MatchingNone | eva_submission/eload_status.py:242-246 | when no report passes, none is kept |
| EloadStatus.AsWrittenNeverMatchesFiles | eva_submission/eload_status.py:242 | a report found by the glob is never among the expected names, all of which end in a space |
| EloadStatus.ReportChoiceAsWritten | eva_submission/eload_status.py:240-250 | as written, with several reports none naming the analysis, the first one is taken whatever the file names |
| EloadStatus.ReportChoiceDiffers | eva_submission/eload_status.py:240-250 | when a later report alone is named after one of the files, the intended choice takes it and the code as written takes the first |
| EloadStatus.FirstIdsTake | eva_submission/eload_status.py:267-283 | on a report that reads without error, the accessions returned are its first `limit` ss ids, in file order |
| EloadStatus.FirstIdsBound | eva_submission/eload_status.py:279-282 | never more than `limit` accessions are returned |
| EloadStatus.GetAccessioningInfo | eva_submission/eload_status.py:267-283 | the loop returns the first 1000 ss ids of the report, in order, or the error a malformed line raises |
| EloadStatus.AnalysisStatus | eva_submission/eload_status.py:144-178 | human data (9606) leave accessioning, remapping, clustering and the target assembly 'Not found'; otherwise the target assembly is the one found for the taxonomy, accessioning is Done exactly when ids were found, remapping Not_required exactly when the source is the target, Required when not yet remapped, Done once remapped |
| EloadStatus.ClusteringAssembly | eva_submission/eload_status.py:159-166 | clustering is looked for in the target assembly in both branches |
| EloadStatus.StatusPerAnalysis | eva_submission/eload_status.py:140-188 | one status per group, in order, each for that group's analysis |
| EloadStatus.StatusNeedsTaxonomy | eva_submission/eload_status.py:146-152 | the statuses exist exactly when every analysis has a taxonomy of its own or the project has one |
| EloadBrokering.LastSummary | eva_submission/eload_brokering.py:210-213 | the summary line whose counts remain is the last one, and there is none when no line is a summary |
| EloadBrokering.ScanSucceeds | eva_submission/eload_brokering.py:210-216 | the report parses exactly when every summary line ends in four `/`-separated integers |
| EloadBrokering.ScanErrors | eva_submission/eload_brokering.py:214-215 | the error list is every other line, stripped, in order |
| EloadBrokering.ScanCounts | eva_submission/eload_brokering.py:211-216 | the counts are those of the last summary line |
| EloadBrokering.NormReportWithoutSummary | eva_submission/eload_brokering.py:207-216 | a log without a summary line gives zero counts and lists every line as an error |
| EloadBrokering.ParseBcftoolsNormReport | eva_submission/eload_brokering.py:206-216 | the loop over the log computes the counts and errors, or ValueError |
| EloadBrokering.ScanFailsOnward | eva_submission/eload_brokering.py:213 | a malformed summary line raises, whatever follows |
| EloadBrokering.Missing | eva_submission/eload_brokering.py:141 | the sample names that received no accession |
| EloadBrokering.UploadRaisesOnMissing | eva_submission/eload_brokering.py:101-141 | the upload raises exactly when it records a failed brokering; a fresh submission records the accessions returned, and fails exactly when none came back or some sample has none |
| EloadBrokering.BrokeringComplete | eva_submission/eload_brokering.py:384-385 | brokering is complete exactly when both the ENA and the BioSamples brokering passed |
| EloadBrokering.NextDayIsNext | eva_submission/eload_brokering.py:320 | the following day is the earliest valid date after a date |
| EloadBrokering.NextDayOverflow | eva_submission/eload_brokering.py:320 | only 9999-12-31 has no following day (OverflowError) |
| EloadBrokering.BrokeringDate | eva_submission/eload_brokering.py:315-319 | the brokering date is a real date, the recorded one or today |
| EloadBrokering.AvailableThreeDaysLater | eva_submission/eload_brokering.py:320-325 | without a hold date the data become public three days after the brokering date |
| EloadBrokering.ArchivalConfirmation | eva_submission/eload_brokering.py:310-341 | 'NA' exactly until both brokerings passed; then the note about non-human data appears exactly when the taxonomy is not 9606 |
| EloadValidation.Tally | eva_submission/eload_validation.py:185-187 | after one more message of a kind, the count is the number of messages seen and the kept list is their first ten |
| EloadValidation.ParseAssemblyCheckLog | eva_submission/eload_validation.py:178-192 | the log parses unless a match line is not two `/`-separated integers; nb_error counts every error line, the list keeps the first ten, and match/total are those of the last match line or None when there is none |
| EloadValidation.ReadLogLine | eva_submission/eload_validation.py:184-191 | reading one more line keeps the counts equal to those of the lines read so far; it fails with ValueError only on a match line that does not parse |
| EloadValidation.MatchParseFailureStays | eva_submission/eload_validation.py:188-191 | a malformed match line anywhere makes the whole log fail, whatever follows it |
| EloadValidation.ErrorListIsCappedPrefix | eva_submission/eload_validation.py:184-187 | the kept error list holds min(count, 10) messages and is the start of the full list |
| EloadValidation.MatchLineRoundTrip | eva_submission/eload_validation.py:188-191 | a match line written from two integers m/t parses back to exactly (m, t) |
| EloadValidation.ParseAssemblyCheckReport | eva_submission/eload_validation.py:194-209 | mismatch lines and 'Multiple synonyms' lines are counted separately, each list keeping its first ten stripped lines |
| EloadValidation.ReportCountsDisjoint | eva_submission/eload_validation.py:200-208 | no line is counted both as a mismatch and as a synonym error, so the two counts add up to at most the number of lines |
| EloadValidation.ParseVcfCheckReport | eva_submission/eload_validation.py:211-226 | the file is valid iff no specification line contains 'not'; the warning count is 1 iff some line is a warning, else 0; every other line is an error, with the first ten kept |
| EloadValidation.VcfLineKinds | eva_submission/eload_validation.py:217-225 | every report line is exactly one of warning, specification or error |
| EloadValidation.Aggregations | eva_submission/eload_validation.py:116-119 | one detected aggregation per VCF file of the analysis, in file order |
| EloadValidation.OneKnownAggregationIsSetTest | eva_submission/eload_validation.py:121 | the source's test (one distinct aggregation, and it is not None) holds iff all files share one non-null aggregation |
| EloadValidation.AnalysisAggregationOk | eva_submission/eload_validation.py:120-131 | an analysis gets an aggregation iff it has files, all with the same non-null detected aggregation, which is then the one recorded |
| EloadValidation.UndetectedFilesExact | eva_submission/eload_validation.py:125-129 | as intended, the error for undetected aggregations lists, in order, exactly the analysis's own files whose detection failed |
| EloadValidation.RequeriedFiles | eva_submission/eload_validation.py:126-129 | the files listed again under the unique alias: TypeError when that alias has no `vcf_files`, IndexError when its list is too short, else the files at the undetected positions |
| EloadValidation.AnalysisAggregationAsWritten | eva_submission/eload_validation.py:116-131 | one analysis as the source handles it gets an aggregation exactly when the intended check gives one; where the unique alias holds the same files, it records exactly what the intended check records |
| EloadValidation.RequeryUnderUniqueAliasRaises | eva_submission/eload_validation.py:120-129 | an analysis `a` with one undetected file `x.vcf` and unique alias `E1_a` raises TypeError in the source, where the intended check records an error naming `x.vcf` |
| EloadValidation.AggregationUniqueKeysHandled | eva_submission/eload_validation.py:115-129 | where every analysis has VCF files and is already keyed by its unique alias, the check does not raise |
| EloadValidation.ValidateGenotypeAggregation | eva_submission/eload_validation.py:113-133 | the loop over the analyses computes the aggregation outcome of the whole list as the source runs it: each analysis's aggregation or its error, raising TypeError on an analysis without VCF files, and raising when the undetected files cannot be listed again under the unique alias |
| EloadValidation.AggregationFailureStays | eva_submission/eload_validation.py:115-129 | once an analysis has raised, later analyses change nothing |
| EloadValidation.AggregationStep | eva_submission/eload_validation.py:120-131 | one more analysis raises exactly when handling it alone raises; otherwise it adds its own error, if it has one, and nothing else to the errors |
| EloadValidation.AggregationPassIff | eva_submission/eload_validation.py:113-133 | the check completes iff every analysis has VCF files and none raises; then there is one error per failing analysis, and the check passes iff every analysis has files all of one detected aggregation |
| EloadValidation.MarkValidFilesAndMetadata | eva_submission/eload_validation.py:58-73 | when some validation task neither passed nor was forced nothing changes; when `submission.analyses` is not a dictionary it raises TypeError with nothing changed; otherwise, on success, outside `validation` the configuration is the old one with every submitted analysis `Filled` (the copy is the same dictionary, so the `vcf_files` write reaches the submission), `validation.valid.analyses.<unique alias>` holds each submitted analysis (the last one for a shared unique alias) with its `vcf_files`, and the metadata spreadsheet is recorded under validation.valid; on an error the analyses filled so far stay filled |
| EloadValidation.CopyValidAnalysis | eva_submission/eload_validation.py:64-70 | one analysis copied under its unique alias with its `vcf_files`, keeping the copies already made under other unique aliases; outside `validation` only that submitted analysis changes, to `Filled`, and only when both writes succeed |
| EloadValidation.SetValidation | eva_submission/eload_validation.py:66-71 | a `set` under `validation` changes nothing else, stores its value, keeps every path that parts ways with its own, and adds the key to the dictionary one level up |
| EloadValidation.Filled | eva_submission/eload_validation.py:64-70 | writing `vcf_files` into an analysis changes it iff it is a dictionary without that key; a dictionary keeps its keys and values and gains `vcf_files`, set to None when it had none |
| EloadValidation.FilledIsValidCopy | eva_submission/eload_validation.py:64-70 | the filled submitted analysis is exactly the valid copy the two `set` calls write, so the submission and the copy stay one dictionary |
| EloadValidation.FillAnalysisEffect | eva_submission/eload_validation.py:64-70 | the write into the shared dictionary changes only `submission.analyses.<alias>`, to `Filled`; every other analysis, every other key of the submission and every other top-level key is kept |
| EloadValidation.WithFilledAnalyses | eva_submission/eload_validation.py:63-70 | after the loop has filled the first n analyses, each of them reads `Filled` (filling twice changes nothing more), every other analysis and every other key of the submission reads as before, and nothing outside the submission changes |
| EloadValidation.FillAnalysisApart | eva_submission/eload_validation.py:63-70 | filling keeps two configurations that differ only in `validation` differing only there |
| EloadValidation.NextAnalysisUnfilled | eva_submission/eload_validation.py:63-66 | the analysis the next step reads is still the one submitted, since the keys are distinct |
| EloadValidation.FilledKeepsSubmissionKey | eva_submission/eload_validation.py:71-72 | the metadata spreadsheet, and any key of the submission but `analyses`, reads after the loop as before it |
| EloadValidation.FillSharedAnalysis | eva_submission/eload_validation.py:67-70 | the `vcf_files` write through the copy fills the submitted analysis, keeping the copies made |
| SplitVcfByTaxonomy.MappingPairsFromRows | eva_submission/steps/split_vcf_by_taxonomy.py:28-33 | a (sample, taxonomy) pair is read iff some TSV row of at least two columns gives it, both stripped |
| SplitVcfByTaxonomy.LoadSampleToTaxonomyMapping | eva_submission/steps/split_vcf_by_taxonomy.py:13-35 | each sample maps to the taxonomy of its last row; each taxonomy lists its samples in file order |
| SplitVcfByTaxonomy.GetAltAlleleIndices | eva_submission/steps/split_vcf_by_taxonomy.py:38-62 | the indices are exactly the non-null alleles above 0 of the GT; a missing GT gives the empty set |
| SplitVcfByTaxonomy.RemappedGenotypeMeaning | eva_submission/steps/split_vcf_by_taxonomy.py:257-272 | the new genotype keeps the ploidy; a missing allele stays missing, the chosen ALT becomes 1 and every other allele 0 |
| SplitVcfByTaxonomy.RemapGenotype | eva_submission/steps/split_vcf_by_taxonomy.py:258-272 | the loop builds the remapped genotype described above |
| SplitVcfByTaxonomy.RemappedCarriesAlt | eva_submission/steps/split_vcf_by_taxonomy.py:257-272 | the biallelic genotype carries an ALT iff the original carried the chosen one |
| SplitVcfByTaxonomy.RemapInfoKeys | eva_submission/steps/split_vcf_by_taxonomy.py:237-254 | Number=A keeps value[alt-1], Number=R keeps (value[0], value[alt]), a too-short tuple is dropped, scalars and other keys are copied, no key is added |
| SplitVcfByTaxonomy.BiallelicCallFacts | eva_submission/steps/split_vcf_by_taxonomy.py:256-302 | per sample: phasing kept only with a GT; GT, missing values and Number=G keys are not copied; A/R keys keep only a long enough tuple; any other key is copied |
| SplitVcfByTaxonomy.BiallelicRecordFacts | eva_submission/steps/split_vcf_by_taxonomy.py:204-304 | the record for one ALT keeps the site, has that single ALT and exactly the listed samples, each remapped |
| SplitVcfByTaxonomy.CollectGroupAltAlleles | eva_submission/steps/split_vcf_by_taxonomy.py:380-384 | the collected indices are exactly those carried by some sample of the taxonomy |
| SplitVcfByTaxonomy.GroupAltAllelesMembers | eva_submission/steps/split_vcf_by_taxonomy.py:380-384 | an index is collected iff some sample of the group carries it |
| SplitVcfByTaxonomy.GroupAltAllelesBounded | eva_submission/steps/split_vcf_by_taxonomy.py:38-62 | when the group fits the record, every collected index is between 1 and the number of ALTs |
| SplitVcfByTaxonomy.GroupFitsIff | eva_submission/steps/split_vcf_by_taxonomy.py:379-395 | the group fits the record iff every index its samples carry is at most the number of ALTs, so `alts[alt_index - 1]` at line 126 cannot raise |
| SplitVcfByTaxonomy.OrderFitsIff | eva_submission/steps/split_vcf_by_taxonomy.py:387 | the sorted indices are all at least 1, and all name an ALT iff the group fits the record |
| SplitVcfByTaxonomy.CarriedInOrder | eva_submission/steps/split_vcf_by_taxonomy.py:387 | the carried indices in strictly ascending order, each a valid ALT position when every carried index names an ALT of the record |
| SplitVcfByTaxonomy.OneRecordPerCarriedAlt | eva_submission/steps/split_vcf_by_taxonomy.py:379-395 | for one input record whose ALTs cover every carried index, a taxonomy's file gets exactly one biallelic record per distinct carried ALT index, and none twice |
| SplitVcfByTaxonomy.DistinctCarriedAltsDiffer | eva_submission/steps/split_vcf_by_taxonomy.py:387-395 | records made for two different carried indices differ |
| SplitVcfByTaxonomy.OutputFileName | eva_submission/steps/split_vcf_by_taxonomy.py:362-365 | the file name ends in '<name>.vcf.gz' and starts with the prefix only when the prefix is truthy |
| SplitVcfByTaxonomy.MappedSamplesMembers | eva_submission/steps/split_vcf_by_taxonomy.py:343-347 | a (taxonomy, sample) pair is grouped iff the sample is in the VCF and maps to that taxonomy |
| SplitVcfByTaxonomy.TaxonomyGroupMembers | eva_submission/steps/split_vcf_by_taxonomy.py:343-347 | a taxonomy's group is exactly its mapped VCF samples |
| SplitVcfByTaxonomy.TaxonomyGroupKeys | eva_submission/steps/split_vcf_by_taxonomy.py:343-351 | a taxonomy has an output file iff some VCF sample maps to it, so no mapped sample means no output |
| SplitVcfByTaxonomy.WriteBiallelicRecords | eva_submission/steps/split_vcf_by_taxonomy.py:387-395 | writes one biallelic record per given index, in that order, after what was written before; an index beyond the ALTs raises IndexError (TypeError when ALT is missing), as `alts[alt_index - 1]` at line 126 does |
| SplitVcfByTaxonomy.WriteRecordsFor | eva_submission/steps/split_vcf_by_taxonomy.py:379-395 | processing one more input record extends a group's file by exactly that record's biallelic records; it raises IndexError (TypeError when ALT is missing) iff some sample of the group carries an index the record has no ALT for |
| SplitVcfByTaxonomy.WriteGroups | eva_submission/steps/split_vcf_by_taxonomy.py:375-395 | Ok iff every record has an ALT for every index each taxonomy carries, and then every taxonomy's file holds the biallelic records of all input records for its samples; otherwise the error is the one the first such record raises |
| SplitVcfByTaxonomy.AllFitStep | eva_submission/steps/split_vcf_by_taxonomy.py:375-395 | the first i+1 records fit every group iff the first i do and record i does |
| SplitVcfByTaxonomy.WriteGroupFiles | eva_submission/steps/split_vcf_by_taxonomy.py:358-398 | one output path per taxonomy, named from the output directory, the prefix and the taxonomy, and each file holds that taxonomy's biallelic records; the first record with a carried index beyond its ALTs raises instead |
| SplitVcfByTaxonomy.GroupVcfSamples | eva_submission/steps/split_vcf_by_taxonomy.py:343-347 | the groups are the mapped VCF samples grouped by taxonomy, in VCF order |
| SplitVcfByTaxonomy.SplitByTaxonomy | eva_submission/steps/split_vcf_by_taxonomy.py:307-406 | one output path per taxonomy of the mapped VCF samples, named '<dir>/<prefix><taxonomy>.vcf.gz'; no VCF samples gives no output; each file holds its group's biallelic records; Ok iff no record has a carried index beyond its ALTs, else the first such record's IndexError or TypeError |
| SplitVcfByTaxonomy.SampleGroups | eva_submission/steps/split_vcf_by_taxonomy.py:409-479 | each VCF sample forms its own group, whose only member is that sample |
| SplitVcfByTaxonomy.SplitBySample | eva_submission/steps/split_vcf_by_taxonomy.py:409-479 | one output path per VCF sample, named '<dir>/<prefix><sample>.vcf.gz', holding a biallelic record for each ALT that sample carries; a GT index beyond the ALTs raises at line 227 (IndexError, or TypeError when ALT is missing), reported for the first such record |
| RenameContigs.ContigsFoundInVcf | eva_submission/steps/rename_contigs_from_insdc_in_assembly.py:36-49 | the contigs are exactly the first tab-separated column of every non-'#' line of every VCF file |
| RenameContigs.HeaderLinesIgnored | eva_submission/steps/rename_contigs_from_insdc_in_assembly.py:45-48 | a '#' line adds no contig |
| RenameContigs.ColumnWritesMeaning | eva_submission/steps/rename_contigs_from_insdc_in_assembly.py:80-84 | a naming column writes (accession, name) iff its value is that VCF contig and the accession is the row's GenBank or RefSeq accession, neither empty nor 'na' |
| RenameContigs.RowWritesMeaning | eva_submission/steps/rename_contigs_from_insdc_in_assembly.py:79-84 | a row writes (accession, name) iff it links that accession to that VCF contig through one of its naming columns |
| RenameContigs.ReportMapMeaning | eva_submission/steps/rename_contigs_from_insdc_in_assembly.py:71-85 | the report map holds exactly the accessions some row links to a VCF contig, each mapped to a contig a row links it to |
| RenameContigs.ReportMapNamesVcfContigs | eva_submission/steps/rename_contigs_from_insdc_in_assembly.py:71-85 | every name in the report map is a VCF contig and no key is empty or 'na' |
| RenameContigs.AssemblyReportMap | eva_submission/steps/rename_contigs_from_insdc_in_assembly.py:71-85 | the loops over rows and naming columns build the report map above, a later write replacing an earlier one |
| RenameContigs.WriteRow | eva_submission/steps/rename_contigs_from_insdc_in_assembly.py:79-84 | one row's four naming columns add their writes, in column order |
| RenameContigs.WriteColumn | eva_submission/steps/rename_contigs_from_insdc_in_assembly.py:80-84 | one naming column writes the GenBank then the RefSeq accession |
| RenameContigs.EntityWritesMeaning | eva_submission/steps/rename_contigs_from_insdc_in_assembly.py:94-96 | an entity writes (name, accessions) iff the name is one of its non-empty names under the four conventions and the accessions are its INSDC and RefSeq ones |
| RenameContigs.AliasIndexMeaning | eva_submission/steps/rename_contigs_from_insdc_in_assembly.py:92-96 | a name is in the index iff some entity bears it, and it maps to the accessions of an entity bearing it |
| RenameContigs.ContigAliasIndex | eva_submission/steps/rename_contigs_from_insdc_in_assembly.py:92-96 | the first loop builds that index |
| RenameContigs.ContigAliasMap | eva_submission/steps/rename_contigs_from_insdc_in_assembly.py:97-106 | an accession is mapped iff it is a truthy INSDC or RefSeq accession of some VCF contig the index knows, and it maps to such a contig |
| RenameContigs.MapBack | eva_submission/steps/rename_contigs_from_insdc_in_assembly.py:100-105 | one contig's INSDC and RefSeq accessions map back to it |
| RenameContigs.RewriteChangingNames | eva_submission/steps/rename_contigs_from_insdc_in_assembly.py:108-121 | the output has one line per FASTA line, each line rewritten on its own |
| RenameContigs.RewrittenHeaderName | eva_submission/steps/rename_contigs_from_insdc_in_assembly.py:113-120 | a rewritten header '>name' reads back as that name when the name holds no whitespace |
| RenameContigs.RenamedToVcfContig | eva_submission/steps/rename_contigs_from_insdc_in_assembly.py:113-120 | a header is renamed to a VCF contig or kept; the assembly-report name wins over the contig-alias name |
| RenameContigs.RewriteKeepsLines | eva_submission/steps/rename_contigs_from_insdc_in_assembly.py:111-121 | non-header lines are copied unchanged and header lines stay header lines |
| SubmissionInFtp.TwoDigitsBelow100 | eva_submission/submission_in_ftp.py:30 | a box number below 100 is written as exactly two digits that read back as the number |
| SubmissionInFtp.DepositBoxPath | eva_submission/submission_in_ftp.py:29-30 | the deposit box is '<ftp_dir>/eva-box-NN/upload/<user>' |
| SubmissionInFtp.AddedOnce | eva_submission/submission_in_ftp.py:48-53 | each file goes to exactly one of the VCF, spreadsheet and other lists, with its size |
| SubmissionInFtp.OfCategoryMembers | eva_submission/submission_in_ftp.py:43-53 | a list holds exactly the walked files of its category |
| SubmissionInFtp.CategoriesPartition | eva_submission/submission_in_ftp.py:43-53 | the three lists together hold every walked file exactly once |
| SubmissionInFtp.FoundOneMore | eva_submission/submission_in_ftp.py:44-53 | one more file walked extends each list by exactly what it adds to that category |
| SubmissionInFtp.SizeSplits | eva_submission/submission_in_ftp.py:59-74 | the total size is the sum of the three lists' sizes, which is the size of all walked files |
| SubmissionInFtp.LastModifiedOf | eva_submission/submission_in_ftp.py:63-66 | the latest modification time of a list, None iff the list is empty |
| SubmissionInFtp.Latest | eva_submission/submission_in_ftp.py:98 | the entry the stable sort by time puts last is one of the files |
| SubmissionInFtp.LatestMeaning | eva_submission/submission_in_ftp.py:98 | that entry is as late as any, and every entry after it is strictly earlier |
| SubmissionInFtp.MostRecent | eva_submission/submission_in_ftp.py:95-100 | the path of a spreadsheet with the maximum time, None iff there are none |
| SubmissionInFtp.FtpDepositBox.constructor | eva_submission/submission_in_ftp.py:35-41 | a new box has its user and number and the walked files sorted into the three lists |
| SubmissionInFtp.FtpDepositBox.Explore | eva_submission/submission_in_ftp.py:43-53 | each walked file is appended to the list of its category, in walk order |
| SubmissionInFtp.FtpDepositBox.Place | eva_submission/submission_in_ftp.py:48-53 | one file is appended to the list its extension selects, and the others are unchanged |
| SubmissionInFtp.ExploredBox | eva_submission/submission_in_ftp.py:41-74 | after exploring, the box's size is that of every walked file and each file is in exactly one list |
| SubmissionInFtp.LastModifiedIsLatest | eva_submission/submission_in_ftp.py:76-85 | with files in all three lists, the box's time is the latest time of any of its files |
| SubmissionQcChecks.LastIndexOfFacts | eva_submission/submission_qc_checks.py:22 | the last occurrence found has none after it, and there is none iff the target is absent |
| SubmissionQcChecks.RSplit | eva_submission/submission_qc_checks.py:22 | rsplit makes at most n splits, so it gives between 1 and n+1 pieces |
| SubmissionQcChecks.RSplitJoin | eva_submission/submission_qc_checks.py:21-23 | joining the rsplit pieces with the separator gives the string back |
| SubmissionQcChecks.RSplitPieces | eva_submission/submission_qc_checks.py:22 | only the last occurrences are split: no piece after the first holds the separator, and the first holds it only when all n splits were used |
| SubmissionQcChecks.RReplace | eva_submission/submission_qc_checks.py:21-23 | rreplace fails (ValueError) iff the target is empty |
| SubmissionQcChecks.AccessionedName | eva_submission/submission_qc_checks.py:251 | a name ending in .vcf.gz keeps its stem and gains .accessioned before the extension |
| SubmissionQcChecks.FindLogAndCheckJob | eva_submission/submission_qc_checks.py:145-163 | a passing job has no error text; a failed or missing log gives a text starting with the job type; no log file means failure |
| SubmissionQcChecks.Checks | eva_submission/submission_qc_checks.py:138-139 | one outcome per (log pattern, job type) pair, in order |
| SubmissionQcChecks.FirstPassingMeaning | eva_submission/submission_qc_checks.py:136-143 | the result passes iff some check passes, with that check's text; otherwise the text is the last check's, or the initial one when there was none |
| SubmissionQcChecks.MultipleLogsMeaning | eva_submission/submission_qc_checks.py:128-143 | the logs pass iff one job passes, then with no error text; no pattern gives 'No log checked for <unit>'; otherwise the last job's error |
| SubmissionQcChecks.CheckMultipleLogs | eva_submission/submission_qc_checks.py:128-143 | the loop that breaks at the first passing job computes that result |
| SubmissionQcChecks.ReportForLog | eva_submission/submission_qc_checks.py:181-192 | the result is PASS iff no unit failed, else FAIL |
| SubmissionQcChecks.ReportListsFailures | eva_submission/submission_qc_checks.py:186-191 | the report of a failure lists every failed unit with its error |
| SubmissionQcChecks.ResultsHaveMeaning | eva_submission/submission_qc_checks.py:93-95 | a response's results name the study iff some result has the project under the key |
| SubmissionQcChecks.ResponsesHaveMeaning | eva_submission/submission_qc_checks.py:91-95 | the responses name the study iff some response with at least one result lists the project |
| SubmissionQcChecks.StudyPresentMeaning | eva_submission/submission_qc_checks.py:89-96 | for a well-formed answer, the study is present iff some response counting results lists the project under the key |
| SubmissionQcChecks.NoResponseNoStudy | eva_submission/submission_qc_checks.py:75-96 | an answer without responses, including the empty one after an HTTP error, does not list the study |
| SubmissionQcChecks.MissingPair | eva_submission/submission_qc_checks.py:244-247 | nothing is reported missing for a file iff it and its .csi index, under either name, are on the FTP |
| SubmissionQcChecks.MissingForEmpty | eva_submission/submission_qc_checks.py:243-257 | nothing is missing for a file iff it is complete: present with its index and, for a non-human taxonomy, its accessioned file present with its index |
| SubmissionQcChecks.AllMissingEmpty | eva_submission/submission_qc_checks.py:240-259 | nothing is missing iff every expected file is complete |
| SubmissionQcChecks.MissingPairOf | eva_submission/submission_qc_checks.py:244-247 | the two tests made of one file: the file itself, then its index under either name |
| SubmissionQcChecks.MissingOfFile | eva_submission/submission_qc_checks.py:243-257 | the loop body gives the missing entries of one file |
| SubmissionQcChecks.CheckFilesInFtp | eva_submission/submission_qc_checks.py:225-262 | FAIL with its own message when the listing fails or is empty; otherwise PASS iff every file is complete, the report listing what is missing or None |
| XmlTree.FindAll | eva_submission/evapro/find_from_ena.py:236 | `findall('.//tag')` gives exactly the descendants with that tag |
| XmlTree.FindFirst | eva_submission/evapro/find_from_ena.py:231 | `find('.//tag')` is None iff no descendant has the tag, and otherwise a descendant with it |
| XmlTree.PathMatches | eva_submission/evapro/find_from_ena.py:213-223 | an element found by a child path carries the path's last tag |
| XmlTree.OneStepIsChildren | eva_submission/ENA_submission/upload_to_ENA.py:107 | a one-step path such as `findall('MESSAGES')` finds exactly the children with that tag, in order |
| FindFromEna.ActionOf | eva_submission/evapro/find_from_ena.py:238-246 | an action has the child's tag as its type and carries schema and source exactly when the child has those attributes |
| FindFromEna.Actions | eva_submission/evapro/find_from_ena.py:236-246 | the actions are exactly the non-HOLD children of the ACTION elements; no HOLD becomes an action |
| FindFromEna.HoldDateFromLastHold | eva_submission/evapro/find_from_ena.py:239-241 | the hold date is that of a HOLD child with no HOLD after it |
| FindFromEna.FirstWith | eva_submission/evapro/find_from_ena.py:248-249 | the index of the first action with the schema, or None when no action has it |
| FindFromEna.ChooseActionPriority | eva_submission/evapro/find_from_ena.py:247-258 | the chosen action is the first project action, else the first analysis action, else the first other action, and None only when there are no actions |
| FindFromEna.ChooseActionIn | eva_submission/evapro/find_from_ena.py:251-258 | a chosen action is one of the parsed actions |
| FindFromEna.ParseSubmission | eva_submission/evapro/find_from_ena.py:228-259 | the chosen action is never a HOLD |
| FindFromEna.StudyDescription | eva_submission/evapro/find_from_ena.py:208-226 | the study description when it is non-empty, else the project description; both XMLs missing give '' |
| FindFromEna.ParseAnalysis | eva_submission/evapro/find_from_ena.py:261-279 | without an ANALYSIS_TYPE there are no experiment types and no platforms |
| FindFromEna.GrandchildTextsMeaning | eva_submission/evapro/find_from_ena.py:272-278 | a text is listed iff some child of the ANALYSIS_TYPE has a sub-element with that tag and text |
| FindFromEna.Chunks | eva_submission/evapro/find_from_ena.py:19-21 | the accessions are cut into non-empty chunks of at most the chunk size |
| FindFromEna.ChunksFlatten | eva_submission/evapro/find_from_ena.py:21-22 | putting the chunks back together gives the accession list |
| FindFromEna.FindSampleAliasesPerAccessions | eva_submission/evapro/find_from_ena.py:16-23 | one search per chunk of 100 accessions, the answers concatenated in chunk order |
| UploadToEna.TimeoutFor | eva_submission/ENA_submission/upload_to_ENA.py:49 | the timeout is one second per 10^7 bytes, clamped to [30, 3600] |
| UploadToEna.MaxOf | eva_submission/ENA_submission/upload_to_ENA.py:48 | the maximum is one of the sizes and no size exceeds it |
| UploadToEna.FtpTimeout | eva_submission/ENA_submission/upload_to_ENA.py:48-49 | an empty batch raises (max of an empty list); otherwise the timeout is within [30, 3600] |
| UploadToEna.UploadVcfFiles | eva_submission/ENA_submission/upload_to_ENA.py:58-70 | the directory is created iff the root listing lacks it; the stored names are the files not already there with the same size, in order |
| UploadToEna.ToUploadMeaning | eva_submission/ENA_submission/upload_to_ENA.py:63-70 | a name is stored iff some file with that basename is not already on the FTP with the same size |
| UploadToEna.ParseXmlReceipt | eva_submission/ENA_submission/upload_to_ENA.py:103-120 | an unparseable receipt gives exactly one error and no accessions; ANALYSIS never appears as a plain tag entry |
| UploadToEna.AccessionedNeverAnalysis | eva_submission/ENA_submission/upload_to_ENA.py:111-116 | ANALYSIS children go to the alias map, never to the tag map |
| UploadToEna.AccessionedLastWins | eva_submission/ENA_submission/upload_to_ENA.py:111-116 | an accessioned child's tag (or, for ANALYSIS, its alias) maps to its accession unless a later child overwrites the same entry |
| UploadToEna.AliasMapMeaning | eva_submission/ENA_submission/upload_to_ENA.py:131 | the aliases are exactly those of the analyses |
| UploadToEna.ParseJsonReceipt | eva_submission/ENA_submission/upload_to_ENA.py:122-139 | text that is not JSON, or has no messages, gives the single parse error; the errors are the receipt's error messages, maybe followed by the parse error; analyses and project come from their keys |
| UploadToEna.PollMeaning | eva_submission/ENA_submission/upload_to_ENA.py:171-184 | polling times out iff every answer up to the first one asked after more than the timeout is 202; otherwise it ends at the first answer that is not 202 |
| UploadToEna.LastPollIsFirstLate | eva_submission/ENA_submission/upload_to_ENA.py:177-182 | the last answer polled is the first one asked after more than the timeout |
| UploadToEna.MonitorResults | eva_submission/ENA_submission/upload_to_ENA.py:171-185 | the polling loop computes that outcome |
| JsonToEnaJson.LinkRoundTrip | eva_submission/ENA_submission/json_to_ENA_json.py:293-312 | parsing the text of a well-formed link (URL with optional label, or db with optional id and label) gives the link back |
| JsonToEnaJson.UrlLinkRoundTrip | eva_submission/ENA_submission/json_to_ENA_json.py:294-303 | a URL link splits on the first '\|' back into its URL and label |
| JsonToEnaJson.XrefLinkRoundTrip | eva_submission/ENA_submission/json_to_ENA_json.py:305-312 | a cross-reference splits on ':' at most twice back into db, optional id and optional label, the label keeping any further ':' |
| JsonToEnaJson.SchemeDatabaseIsUrl | eva_submission/ENA_submission/json_to_ENA_json.py:294 | a cross-reference whose db is a URL scheme such as 'ftp' is read back as a URL link |
| JsonToEnaJson.UrlLabelDefaultsToUrl | eva_submission/ENA_submission/json_to_ENA_json.py:295-297 | a URL without '\|' is its own label |
| JsonToEnaJson.FileObsFacts | eva_submission/ENA_submission/json_to_ENA_json.py:92-107 | a file entry needs a fileName (KeyError otherwise); fileType is vcf, tabix or csi by suffix and absent otherwise; checksum fields appear iff md5 is given |
| JsonToEnaJson.SamplesPerAnalysis | eva_submission/ENA_submission/json_to_ENA_json.py:257-262 | the loop groups each sample under every stripped alias it names |
| JsonToEnaJson.AddSample | eva_submission/ENA_submission/json_to_ENA_json.py:260-261 | one sample is appended under each of its stripped aliases, in order |
| JsonToEnaJson.SampleListedUnderItsAliases | eva_submission/ENA_submission/json_to_ENA_json.py:257-262 | a sample is listed under a key iff it is one of the samples and one of its aliases strips to that key |
| JsonToEnaJson.FilesPerAnalysis | eva_submission/ENA_submission/json_to_ENA_json.py:264-268 | the loop groups each file under its stripped alias ('' when absent) |
| JsonToEnaJson.FileListedUnderItsAlias | eva_submission/ENA_submission/json_to_ENA_json.py:264-268 | a file is listed under its own stripped alias and no other |
| JsonToEnaJson.ProjectAliasFacts | eva_submission/ENA_submission/json_to_ENA_json.py:71-73 | the alias is '<existing>_<id>' for an existing project, else the submission id, and it determines the submission id |
| JsonToEnaJson.EmptyAccessionCountsAsExisting | eva_submission/ENA_submission/json_to_ENA_json.py:36-73 | an empty project accession skips both checks yet counts as an existing project, giving the alias '_<id>' |
| JsonToEnaJson.SubmissionObjectFacts | eva_submission/ENA_submission/json_to_ENA_json.py:270-291 | the submission alias is the project alias; the hold date is the given one when truthy, else the default; the centre appears iff it is non-empty |
| JsonToXlsx.ParseDate | eva_sub_cli_processing/sub_cli_to_eload_converter/json_to_xlsx_converter.py:8-21 | the text stays as it is iff no format parses it; a parsed date is a valid calendar date, and a bare year gives 1 January of that year |
| JsonToXlsx.FileTypeMeaning | eva_sub_cli_processing/sub_cli_to_eload_converter/json_to_xlsx_converter.py:136 | the File Type transform gives 'vcf' iff the name ends with .vcf or .vcf.gz, and never fails on a string |
| JsonToXlsx.CellFor | eva_sub_cli_processing/sub_cli_to_eload_converter/json_to_xlsx_converter.py:200-217 | a column's cell is its raw value (the element's own, else the default or linked value), transformed only when the column has a transform and the value is truthy |
| JsonToXlsx.FillRowMeaning | eva_sub_cli_processing/sub_cli_to_eload_converter/json_to_xlsx_converter.py:197-219 | a row has one cell per sorted column, each given by that column's rule, and fails iff some column's cell fails |
| JsonToXlsx.Columns | eva_sub_cli_processing/sub_cli_to_eload_converter/json_to_xlsx_converter.py:178-198 | the columns are exactly the mapping's keys |
| JsonToXlsx.HeaderRow | eva_sub_cli_processing/sub_cli_to_eload_converter/json_to_xlsx_converter.py:178-185 | the header row holds each column's name, in column order |
| JsonToXlsx.FillWorksheetRows | eva_sub_cli_processing/sub_cli_to_eload_converter/json_to_xlsx_converter.py:194-219 | the worksheet's rows follow the elements one for one |
| JsonToXlsx.FillRowsSnoc | eva_sub_cli_processing/sub_cli_to_eload_converter/json_to_xlsx_converter.py:195-219 | the filled rows are those of all but the last element, then the last element's row |
| JsonToXlsx.DataBelowHeader | eva_sub_cli_processing/sub_cli_to_eload_converter/json_to_xlsx_converter.py:159-196 | data rows start below the header row, so they never overwrite it |
| JsonToXlsx.FilesFileTypeCell | eva_sub_cli_processing/sub_cli_to_eload_converter/json_to_xlsx_converter.py:200-217 | in a Files row, File Type is 'vcf' when the linked file name ends in .vcf or .vcf.gz, and '' otherwise |
| JsonToXlsx.CharError | eva_sub_cli_processing/sub_cli_to_eload_converter/json_to_xlsx_converter.py:232-235 | the error reported for failing characteristics is the error of one of them |
| JsonToXlsx.FlattenSample | eva_sub_cli_processing/sub_cli_to_eload_converter/json_to_xlsx_converter.py:224-236 | a flattened sample keeps every key of the sample; a BioSample object that is not a dictionary raises TypeError; characteristics that are not a dictionary raise AttributeError; dictionary characteristics flatten iff each has a first text, and otherwise the error is that of a failing characteristic; a sample without a BioSample object always flattens |
| JsonToXlsx.CharacteristicsWin | eva_sub_cli_processing/sub_cli_to_eload_converter/json_to_xlsx_converter.py:232-235 | each characteristic becomes its first text, overriding any other field of that name |
| JsonToXlsx.SwapNames | eva_sub_cli_processing/sub_cli_to_eload_converter/json_to_xlsx_converter.py:243-247 | the swap changes no key |
| JsonToXlsx.SwapNamesInvolution | eva_sub_cli_processing/sub_cli_to_eload_converter/json_to_xlsx_converter.py:242-248 | swapping twice gives the sample back; when both names are truthy and differ they change places |
| JsonToXlsx.Ignored | eva_sub_cli_processing/sub_cli_to_eload_converter/json_to_xlsx_converter.py:248 | at most one BioSample name is set aside per sample |
| JsonToXlsx.IgnoredIffSwapped | eva_sub_cli_processing/sub_cli_to_eload_converter/json_to_xlsx_converter.py:245-248 | a BioSample name is set aside iff the swap changes the sample |
| JsonToXlsx.FlattenAll | eva_sub_cli_processing/sub_cli_to_eload_converter/json_to_xlsx_converter.py:222-237 | a successful flattening has one sample per input sample |
| JsonToXlsx.FlattenAllMeaning | eva_sub_cli_processing/sub_cli_to_eload_converter/json_to_xlsx_converter.py:222-237 | flattening succeeds iff every sample flattens, and then each sample is flattened in place |
| JsonToXlsx.FlattenAllOk | eva_sub_cli_processing/sub_cli_to_eload_converter/json_to_xlsx_converter.py:222-237 | flattening succeeds exactly when every sample flattens |
| JsonToXlsx.FlattenAllAt | eva_sub_cli_processing/sub_cli_to_eload_converter/json_to_xlsx_converter.py:222-237 | a successful flattening holds each sample flattened at its own position |
| JsonToXlsx.FlattenAllFailsOnward | eva_sub_cli_processing/sub_cli_to_eload_converter/json_to_xlsx_converter.py:223-237 | once a sample fails, the whole flattening fails with its error |
| JsonToXlsx.SwapAll | eva_sub_cli_processing/sub_cli_to_eload_converter/json_to_xlsx_converter.py:241-248 | one swapped sample per flattened sample, and at most as many names set aside |
| JsonToXlsx.SwapAllPointwise | eva_sub_cli_processing/sub_cli_to_eload_converter/json_to_xlsx_converter.py:242-248 | each sample is swapped in place |
| JsonToXlsx.SwapAllTwice | eva_sub_cli_processing/sub_cli_to_eload_converter/json_to_xlsx_converter.py:242-248 | swapping the swapped samples again gives the flattened samples back |
| JsonToXlsx.NothingIgnoredIffUnchanged | eva_sub_cli_processing/sub_cli_to_eload_converter/json_to_xlsx_converter.py:241-251 | no BioSample name is set aside iff no sample is swapped |
| JsonToXlsx.FlattenSampleData | eva_sub_cli_processing/sub_cli_to_eload_converter/json_to_xlsx_converter.py:221-252 | the flattening loop then the swapping loop compute the flattened, swapped samples and the set-aside names |
| JsonToXlsx.FlattenEach | eva_sub_cli_processing/sub_cli_to_eload_converter/json_to_xlsx_converter.py:223-237 | the flattening loop stops at the first sample that cannot be flattened |
| JsonToXlsx.SwapEach | eva_sub_cli_processing/sub_cli_to_eload_converter/json_to_xlsx_converter.py:242-248 | the swapping loop swaps each sample and sets aside its BioSample name when it does |
| VerticalConcat.Pipeline.AddDependencies | submission_commons/run_vcf_vertical_concat_pipeline.py:91 | the dependency record of one process is appended to the pipeline's edges |
| VerticalConcat.CeilDivIsCeiling | submission_commons/run_vcf_vertical_concat_pipeline.py:62 | the batch count is ceil(n/chunk): enough chunks to cover n, and no more |
| VerticalConcat.BatchesPartition | submission_commons/run_vcf_vertical_concat_pipeline.py:65-67 | the batches put back together give the files, and each holds 1 to chunk files |
| VerticalConcat.BatchesAreSlices | submission_commons/run_vcf_vertical_concat_pipeline.py:62-67 | there are ceil(n/chunk) batches, batch b being the slice [chunk*b, chunk*(b+1)) |
| VerticalConcat.StageShrinks | submission_commons/run_vcf_vertical_concat_pipeline.py:62-93 | with at least two files and batches of at least two, a stage has at least one and fewer outputs than inputs |
| VerticalConcat.OutputNameShape | submission_commons/run_vcf_vertical_concat_pipeline.py:114-123 | an output lies in '<dir>/vertical_concat/stage_<s>' and ends with 'concat_output_stage<s>_batch<b>.vcf.gz' |
| VerticalConcat.CommandAppendsToLog | submission_commons/run_vcf_vertical_concat_pipeline.py:29-37 | every command is a 'bash -c' line sending both output streams to the end of its log |
| VerticalConcat.StageProcesses | submission_commons/run_vcf_vertical_concat_pipeline.py:65-83 | one process per batch of the stage, batch b's being named for its stage and batch |
| VerticalConcat.StageOutputs | submission_commons/run_vcf_vertical_concat_pipeline.py:71-84 | one output per batch, batch b's being its stage-and-batch output name |
| VerticalConcat.StageEdges | submission_commons/run_vcf_vertical_concat_pipeline.py:90-91 | batch b waits for the previous-stage processes [chunk*b, chunk*(b+1)) |
| VerticalConcat.RunStage | submission_commons/run_vcf_vertical_concat_pipeline.py:62-91 | the stage loop makes ceil(n/chunk) processes and outputs, writes each batch's file list, and records each batch's dependencies |
| VerticalConcat.AddBatch | submission_commons/run_vcf_vertical_concat_pipeline.py:66-91 | one turn of the stage loop adds the next batch's list, process, output and dependencies |
| VerticalConcat.MultistagePipeline | submission_commons/run_vcf_vertical_concat_pipeline.py:40-97 | the recursive pipeline builder succeeds iff the plan does, returning its final file and adding its dependencies to the pipeline |
| VerticalConcat.PlanAfterStage | submission_commons/run_vcf_vertical_concat_pipeline.py:62-97 | for several files the plan is the first stage followed by the plan for its fewer outputs |
| VerticalConcat.PlanSucceedsIff | submission_commons/run_vcf_vertical_concat_pipeline.py:60-93 | the plan exists iff there is one file or several in batches of at least two; one file is itself the result with no stage |
| VerticalConcat.PlanFinalOutput | submission_commons/run_vcf_vertical_concat_pipeline.py:60-97 | with several files the result is the single output of the last stage, with one dependency recorded per batch of every stage |
| VerticalConcat.PlanFinalName | submission_commons/run_vcf_vertical_concat_pipeline.py:60-97 | with several files the result is the single output of the last stage |
| VerticalConcat.PlanEdgeCount | submission_commons/run_vcf_vertical_concat_pipeline.py:60-97 | with several files one dependency is recorded per batch of every stage |
| VerticalConcat.FiveFilesInPairs | submission_commons/run_vcf_vertical_concat_pipeline.py:43-58 | five files in pairs take three stages of three, two and one batches |
| LoadSamples.MappingEntryFields | bin/load_samples.py:97-102 | a line keys its first column; a second column sets sample_name and a third biosample_accession, and the entry has no other field |
| LoadSamples.ReadSampleMapping | bin/load_samples.py:90-104 | the loop over the lines builds the mapping, a later line with the same key replacing the earlier one |
| LoadSamples.ReadMappingLine | bin/load_samples.py:97-102 | one line gives its key a fresh entry filled from the columns present |
| LoadSamples.SampleMappingLastLine | bin/load_samples.py:96-102 | a key is mapped iff some line starts with it, and it takes the entry of the last such line |
| LoadSamples.FirstFull | bin/load_samples.py:442-445 | the first searched characteristic whose text is the sample name, None iff there is none |
| LoadSamples.FirstContaining | bin/load_samples.py:448-451 | the first searched characteristic whose text contains the sample name, None iff there is none |
| LoadSamples.SearchPriority | bin/load_samples.py:439-453 | a full characteristic match wins over the name containing the sample, which wins over a contained characteristic; no match of any kind gives (None, None) |
| LoadSamples.NoDocumentNoMatch | bin/load_samples.py:440-453 | without a document, or without characteristics, nothing matches |
| LoadSamples.ScanEna | bin/load_samples.py:414-423 | a scan that stops stops at an ENA name that fully matches |
| LoadSamples.ScanEnaFirst | bin/load_samples.py:414-423 | the scan stops iff some ENA name fully matches, and then at the first one |
| LoadSamples.RemoveFirst | bin/load_samples.py:436 | `list.remove` drops exactly one occurrence of a present name and leaves the list unchanged otherwise |
| LoadSamples.ResolveOneRemoves | bin/load_samples.py:411-436 | a fully matched ENA name is recorded as Matched and leaves the unmatched ENA names; otherwise the VCF name is left over and the ENA names are unchanged |
| LoadSamples.ResolveAccounts | bin/load_samples.py:407-437 | every VCF name is either fully matched, taking one ENA name out, or left over; the ENA names left are among those given |
| LoadSamples.ScanUnmatchedEna | bin/load_samples.py:414-426 | the inner loop finds the first full match, or else collects the contained matches |
| LoadSamples.ResolveUnmatchedSamples | bin/load_samples.py:407-437 | the loop over the VCF names computes the mapping, the remaining VCF names and the remaining ENA names |
| BioSamplesSubmitters.NewSubmitter | eva_submission/biosample_submission/biosamples_submitters.py:36-42 | construction succeeds iff there is at least one communicator and every submit type is a valid action; otherwise AssertionError |
| BioSamplesSubmitters.FirstOwner | eva_submission/biosample_submission/biosamples_submitters.py:76-79 | the first account, in order, whose attributes the stored sample carries, or None when no account owns it |
| BioSamplesSubmitters.SubmitActionRules | eva_submission/biosample_submission/biosamples_submitters.py:213-263 | a sample without an accession is created iff 'create' is allowed, else left alone; a sample with one is never created; every action taken was allowed, an overwrite under 'override' included |
| BioSamplesSubmitters.OverrideNeedsNcbiSample | eva_submission/biosample_submission/biosamples_submitters.py:55-85 | without 'overwrite', a sample can be overwritten iff 'override' is allowed and its accession starts with SAMN |
| BioSamplesSubmitters.AppendMissingFacts | eva_submission/biosample_submission/biosamples_submitters.py:163-165 | the existing elements stay first; afterwards every source element is present, and nothing else is added |
| BioSamplesSubmitters.AppendMissingOverwrite | eva_submission/biosample_submission/biosamples_submitters.py:164-165 | with allow_overwrite every element is appended, duplicates included |
| BioSamplesSubmitters.AppendMissingKeepsDistinct | eva_submission/biosample_submission/biosamples_submitters.py:164-165 | without allow_overwrite no element is appended that is already there |
| BioSamplesSubmitters.ArrayUpdated | eva_submission/biosample_submission/biosamples_submitters.py:158-165 | a key absent from the source changes nothing; no other key of the destination changes |
| BioSamplesSubmitters.UpdateFromArray | eva_submission/biosample_submission/biosamples_submitters.py:158-165 | the loop computes that update |
| BioSamplesSubmitters.ArraysUpdated | eva_submission/biosample_submission/biosamples_submitters.py:179-182 | keys not updated, or absent from the source, keep their value |
| BioSamplesSubmitters.ScalarsCopied | eva_submission/biosample_submission/biosamples_submitters.py:183-185 | fields already in the sample keep their value; a missing field is taken from the source iff it is one of the copied keys |
| BioSamplesSubmitters.UpdateSamplesWith | eva_submission/biosample_submission/biosamples_submitters.py:167-185 | the method computes the merge of one sample into another |
| BioSamplesSubmitters.SelectSource | eva_submission/biosample_submission/biosamples_submitters.py:169-175 | under 'override' the source is reduced to its overridable characteristics |
| BioSamplesSubmitters.MergeCharacteristicsInto | eva_submission/biosample_submission/biosamples_submitters.py:176-178 | the characteristics step of the merge |
| BioSamplesSubmitters.UpdateArrays | eva_submission/biosample_submission/biosamples_submitters.py:179-182 | the array step of the merge, one key after another |
| BioSamplesSubmitters.CopyScalars | eva_submission/biosample_submission/biosamples_submitters.py:183-185 | the loop that copies taxId, accession, name and release when missing |
| BioSamplesSubmitters.CharacteristicsInto | eva_submission/biosample_submission/biosamples_submitters.py:176-178 | the loop that copies each source characteristic the destination lacks, or every one with allow_overwrite |
| BioSamplesSubmitters.MergedSteps | eva_submission/biosample_submission/biosamples_submitters.py:167-185 | a successful merge is the characteristics step, then the array step, then the scalar step, each succeeding |
| BioSamplesSubmitters.OverrideKeepsOtherFields | eva_submission/biosample_submission/biosamples_submitters.py:169-185 | under 'override' the merge changes no field of the sample but its characteristics |
| BioSamplesSubmitters.OverrideKeepsOtherCharacteristics | eva_submission/biosample_submission/biosamples_submitters.py:169-178 | under 'override' every characteristic outside the three allowed ones keeps its value |
| BioSamplesSubmitters.MergedCharacteristic | eva_submission/biosample_submission/biosamples_submitters.py:176-178 | without 'override', a source characteristic is added where the destination lacks it and replaces it only with allow_overwrite; the others are untouched |
| BioSamplesSubmitters.LaterStepsKeepCharacteristics | eva_submission/biosample_submission/biosamples_submitters.py:179-185 | the array and scalar steps leave the characteristics alone |
| BioSamplesSubmitters.ScalarsFillOnlyGaps | eva_submission/biosample_submission/biosamples_submitters.py:183-185 | taxId, accession, name and release are copied from the source only into a sample that lacks them |
| BioSamplesSubmitters.DiffAttributes | eva_submission/biosample_submission/biosamples_submitters.py:112-146 | the diff fails iff some attribute cannot be read; otherwise it classifies each attribute of the union of both samples |
| BioSamplesSubmitters.CollectAttribute | eva_submission/biosample_submission/biosamples_submitters.py:114-146 | one attribute of the union is appended to its list when that side wants it, failing exactly when its first value cannot be read |
| BioSamplesSubmitters.DiffClassifiesCharacteristics | eva_submission/biosample_submission/biosamples_submitters.py:113-146 | an added characteristic goes to Post only; a changed one to Pre and Post; a removed one to Pre iff allow_removal; an unchanged one to neither |
| BioSamplesSubmitters.CleanReferencesDropOnlyNulls | eva_submission/biosample_submission/biosamples_submitters.py:103-107 | cleaning drops exactly the None values of the stored references and keeps every other value |
| BioSamplesSubmitters.CurationObject | eva_submission/biosample_submission/biosamples_submitters.py:98-155 | the curation holds the characteristic diff, the cleaned stored references against the new ones, the stored relationships against the new ones, and the sample's accession |
| BioSamplesSubmitters.MapKey | eva_submission/biosample_submission/biosamples_submitters.py:297-305 | the mapped name when the mapping has the key, else the key unchanged |
| BioSamplesSubmitters.MapKeyIdempotent | eva_submission/biosample_submission/biosamples_submitters.py:297-305 | mapping twice gives the same as once when no mapped name is itself mapped |
| BioSamplesSubmitters.Walk | eva_submission/biosample_submission/biosamples_submitters.py:326-333 | the intended descent returns a dictionary |
| BioSamplesSubmitters.WalkStoresEntry | eva_submission/biosample_submission/biosamples_submitters.py:326-333 | after a successful descent, the full dotted path reads back the entry |
| BioSamplesSubmitters.ApplyMapping | eva_submission/biosample_submission/biosamples_submitters.py:313-335 | a falsy key or value changes nothing; a list key applies each element; a single key is applied as one name |
| BioSamplesSubmitters.ApplyNameStores | eva_submission/biosample_submission/biosamples_submitters.py:325-335 | a 'characteristics.' key stores [{'text': value}] at its dotted path; any other key is set as is |
| BioSamplesSubmitters.AsWrittenAgreesOnOneLevel | eva_submission/biosample_submission/biosamples_submitters.py:328-333 | with one dictionary to descend, the loop as written does what was intended |
| BioSamplesSubmitters.AsWrittenNestedKeyWritesTwice | eva_submission/biosample_submission/biosamples_submitters.py:328-333 | with a nested key such as characteristics.a.b, the loop as written also writes characteristics['b'] |
| BioSamplesSubmitters.NestedKeyParts | eva_submission/biosample_submission/biosamples_submitters.py:326 | 'characteristics.a.b' splits into the dictionaries to descend and the key to assign |

## Left out

- EloadUtils.DetectVcfAggregation falls back on the intended manual reading, not the one as written (see Findings); EloadUtils.DetectVcfAggregationAsWritten is the composition as written.
- JsonToXlsx.CharError: when several characteristics have no first text, the source raises the error of the first one in the dictionary's order. The model's dictionaries have no order, so it reports the first of IndexError, AttributeError, KeyError and TypeError that some failing characteristic raises.
- LSF and SLURM job control in eva_submission/executor/cluster_executor.py runs subprocesses and sleeps: job submission, `stop_running_jobs`, start, join and cancel are not modelled. The model keeps the job-state parsing, `_job_finished`, `_run_and_retry` and the exit-status sum.
- Database, HTTP and MongoDB queries (EVAPRO, ENA, BioSamples, the contig-alias service) are not modelled. Their answers enter the model as parameters.
- The wording of the archival letters and of the log messages is not modelled. Only the decisions they report are.
- YAML input and output of the ELOAD config (`EloadConfig.write`, `load_config_file`, `__del__`, `load_config`) is not modelled. The config content is a JSON-like value, and the backup rotation is modelled on a set of file names.
- The pysam reading of a VCF (`_assess_vcf_aggregation_with_pysam`, `get_samples_from_vcf_pysam`) is an input to the model. Only the manual line-by-line reading is modelled.
- openpyxl reading and writing in the spreadsheet modules and in eva_sub_cli_processing/sub_cli_to_eload_converter/json_to_xlsx_converter.py is not modelled. Worksheets are sequences of rows. The instruction sheet and the mappers other than the ones in the "## Model" table are not modelled.
- UploadToEna.ParseJsonReceipt: the model drops the partial entries written before a missing key raises. It also assumes aliases are strings.
- UploadToEna.ParseXmlReceipt keeps the accessions of plain receipt tags apart from the errors, so a receipt child tagged `errors` with an accession does not replace the error list as it does in eva_submission/ENA_submission/upload_to_ENA.py:115-116.
- UploadToEna.MonitorResults requires a positive polling wait, because with a zero wait the loop has no measure that decreases.
- UploadToEna.FtpTimeout divides exactly, on integers. The source divides as a float and then truncates, which can differ for sizes beyond float precision.
- EloadValidation: the percentage shown in the report (eva_submission/eload_validation.py:457) is floating point and is not modelled.
- SplitVcfByTaxonomy.SplitByTaxonomy: when a carried ALT index has no ALT, the model returns only the IndexError or TypeError. The output files the source has already opened and partly written at that point are not modelled.
- SplitVcfByTaxonomy.SplitBySample visits the alternate-allele indices in ascending order. The source iterates over a Python set, whose order the language leaves unspecified.
- LoadSamples.ResolveUnmatchedSamples keeps the first candidate when several ENA names point to the same BioSample. The source pops one from a Python set, whose choice the language leaves unspecified.
- RenameContigs.ContigAliasMap states the map it builds regardless of the order of the contigs, because the source collects the contigs in a Python set.
- Python's repr of a list is modelled without escaping quotes or backslashes inside the strings.
- Python's `strptime` also accepts some non-ASCII digits. The date checks accept only ASCII digits.
- eva_submission/submission_qc_checks.py: the check_* methods other than the FTP-file check (lines 198-223 and from line 264 on) and `_check_if_variants_were_skipped_in_log` are not modelled. They only read logs and databases and format reports.
- eva_submission/submission_in_ftp.py: the report printing and `inspect_all_users` are not modelled. The modification time of a deposit box is a parameter.
- BioSample documents are assumed to carry a name and a 'characteristics' map of texts. The HTTP calls of `create_derived_sample`, `validate_in_bsd` and `submit_biosample_to_bsd` are not modelled; only the choice of action is.
- `_unique_alias` and `detect_vcf_aggregation` enter the callers that use them as function parameters.
- EloadValidation.DistinctAggregations lists the aggregations of a 'Multiple aggregation found' error in sorted order; the source joins a set, in an order Python leaves unspecified.
- Text.ParseInt refuses the underscores between digits that Python's `int()` accepts. It also reads only the ASCII digits '0' to '9' (`Text.IsDigit`), where Python's `int()` accepts any Unicode decimal digit, e.g. `int('٣') == 3`.
- Text.Lower lower-cases only 'A' to 'Z'. Python's `str.lower()` also maps non-ASCII letters, e.g. U+212A KELVIN SIGN to 'k' and 'É' to 'é'. Every comparison made through it (the 'not provided' values and the date checks) is therefore exact only on ASCII text.
- XlsxValidation.CheckDateErrors: the 'not provided' test (eva_submission/xlsx/xlsx_validation.py:221-230) lower-cases the value through `Text.Lower`, which folds only 'A' to 'Z'. Python's `str.lower()` also folds non-ASCII letters, so a value spelled with U+212A KELVIN SIGN in place of 'k' is accepted by the source as 'not provided' and reported by the model as not a date.
- UploadToEna.MessageErrors gives None for an 'error' value that is a dictionary, whose keys `extend` would add in an order a map does not keep.
- EloadValidation.MarkValidFilesAndMetadata raises TypeError for any `submission.analyses` that is not a dictionary; the source raises so only when it is missing, and would iterate a list or a string.
- EloadValidation.MarkValidFilesAndMetadata: after the `vcf_files` write, the valid copy and the submitted analysis are one object in the source, so any later change through one shows through the other. The model stores two equal values, and keeps them equal only for the writes this loop makes.
- RenameContigs: `_get_assembly_report` parsing, gzip handling, the ContigAliasClient query, `main` and the argument parsing are not modelled. The assembly report and the alias answers are parameters.
- The lists of keys and groups that the validator checks are parameters, fixed by the callers in the source.
- `detect_and_optionally_merge` is not modelled, because it only drives the merge tools through subprocesses.
- `cerberus_validation` and `semantic_validation` in eva_submission/xlsx/xlsx_validation.py are not modelled. They call the cerberus schema library and external services.
- `parse_sv_check_log` and the report formatters in eva_submission/eload_validation.py are not modelled. They only format text.
- SequenceReportProcessor: the concrete assembly report of the repository's Java unit test is not part of this model. AccessionsShape states the general property that covers it.

## Findings

| source | as written | input that shows it | evidently intended | confidence | as-written member | corrected member |
|---|---|---|---|---|---|---|
| eva_submission/eload_utils.py:257 | the AF test uses the results of `str.find` as truth values, and -1 (absent) is true, so the test holds for every INFO field | an INFO field `DP=3`, with no frequency at all | AF present, or both AC and AN present | not executed | EloadUtils.AfInInfoCounterexample | EloadUtils.AssessVcfAggregationManual |
| eva_submission/eload_utils.py:245-259 | `nb_line_checked` is never incremented, so the ten-line limit never stops the reading and every line of the file is read | a VCF with samples whose first ten data lines carry GT and whose eleventh has no FORMAT column: read as written, GT is judged absent | stop after the tenth data line | not executed | EloadUtils.LineLimitIgnored | EloadUtils.AssessVcfAggregationManual |
| eva_submission/biosample_submission/biosamples_submitters.py:328-333 | in `apply_mapping` the assignment is inside the `for` loop over the dotted key, so a nested characteristics key stores the value at every level it walks through | key 'characteristics.a.b' on a sample `{'characteristics': {'a': {}}}` | store the value only at the leaf | not executed | BioSamplesSubmitters.AsWrittenNestedKeyWritesTwice | BioSamplesSubmitters.ApplyNameStores |
| eva_submission/eload_status.py:242-265 | `get_accession_file` ends the expected name with a space, so no accessioning report found on disk is ever among the expected names; with several reports that do not name the analysis, the first one is always taken | two reports `x.accessioned.vcf.gz` and `y.accessioned.vcf.gz` for an analysis whose file is `y.vcf.gz` | pick the report named after the analysis' file | not executed | EloadStatus.ReportChoiceDiffers | EloadStatus.SelectReportByFile |
| eva_submission/eload_validation.py:120-129 | `analysis_alias` is rebound to the unique alias before the undetected files are listed, so `vcf_files` is queried again under the unique alias, where no analysis may be stored | analyses `{"a": {"vcf_files": ["x.vcf"]}}`, the aggregation of `x.vcf` undetected, unique alias `E1_a`: `query` returns `None` and indexing it raises TypeError | list the analysis's own undetected files | not executed | EloadValidation.RequeryUnderUniqueAliasRaises | EloadValidation.UndetectedFilesExact |

## Code and documentation that differ

The model follows the code in each of these cases.

- UploadToEna: the repository's test file tests/test_upload_to_ENA.py expects a receipt map from accession to alias and a string under 'errors'. The code maps alias to accession and collects the errors in a list.
- XlsxParserEva: eva_submission/xlsx/xlsx_parser_eva.py calls `XlsxReader`, `XlsxWriter` and `set_rows(rows, empty_remaining_rows=True)`. These do not match eva_submission/xlsx/xlsx_parser.py, which defines `XLSReader`, `XLSWriter` and `set_rows(rows)`. The model uses the definitions in xlsx_parser.py.
- JsonToEnaJson.EmptyAccessionCountsAsExisting: an empty project accession skips both existence checks yet still counts as an existing project.
- JsonToEnaJson.SchemeDatabaseIsUrl: a cross-reference whose database is named like a URL scheme is read back as a URL link.
