# airplane-detection pipeline, modelled in Dafny

The repository prepares aerial images of airplanes for YOLO training and evaluation. Its scripts do the following:

- `scripts/enhance_yolo_aerial.py` enhances the raw images with OpenCV filters.
- `scripts/sharpen_all_images_unsharp.py` makes an unsharp-masked copy of the raw images.
- `scripts/split_dataset.py` shuffles each dataset and cuts it into train/val/test folders.
- `scripts/create_data_yaml.py` writes one dataset descriptor per split.
- `scripts/train.py` trains a model and keeps its best weights under a dated name.
- `scripts/evaluate.py` validates the newest weights for each dataset.
- `main.py` and `sharpen_main.py` run these scripts in sequence as child processes and stop at the first failure.

This project models the bookkeeping around the library calls and proves what it guarantees:

- which files are listed, filtered, copied and written, and where;
- how the lists are shuffled, sorted, cut and truncated;
- how the per-image outcomes are counted;
- how names are derived and parsed back;
- which weights file is selected;
- which stages get launched.

The models by module:

- `FileStore` models the file system as a class with a map from paths to bytes and a set of directories. Paths are sequences of components.
- `Imaging` models OpenCV as a record of opaque functions: decoding, encoding, filtering, blurring, resizing and comparison. A decode or a write can fail.
- `Names` holds the `pathlib`/`os.path` name arithmetic.
- `PathOrder` holds the ordering `sorted` uses on paths, and a verified sort.
- `Shuffling` holds the in-place swap loop of `random.shuffle`. The random draws are an input, `pick(i) <= i`, so the result is an arbitrary permutation.
- `Splitter`, `Enhance`, `Sharpen`, `DataYaml`, `Training`, `Evaluation` and `Runner` follow the scripts one to one.

Scripts that change files step by step are modelled as methods on `FileSystem`. Each such method is proved equal to a specification function, such as `CopyAll`, `Run` or `SharpenRun`, and the lemmas state what those functions guarantee.

Where the code differs from the repository's own description, the model follows the code:

- `--clahe` and `--sharpen` only feed the default policy; CLAHE and unsharp masking always run.
- The `--datapath`, `--train_pct` and `--modelType` options the runners pass are ignored by the scripts they call.
- `scripts/train.py` trains on `dataset/data.yaml`, which `scripts/create_data_yaml.py` never writes. See `Training.TrainsOnUnwrittenDescriptor`.
- The weights `scripts/train.py` saves never match the tags `scripts/evaluate.py` looks for. See `Evaluation.TrainedWeightsNeverEvaluated`.

## Model

| member | source | states |
|---|---|---|
| FileStore.FileSystem.MakeDirs | scripts/split_dataset.py:19-20 | `mkdir(parents=True, exist_ok=True)` adds the folder and all its ancestors as directories and leaves the files alone |
| FileStore.FileSystem.MakeDir | scripts/train.py:16 | `mkdir(exist_ok=True)` adds exactly that directory |
| FileStore.FileSystem.Copy | scripts/split_dataset.py:23 | the destination gets the source's bytes; nothing else changes |
| FileStore.FileSystem.Write | scripts/enhance_yolo_aerial.py:110 | a successful write sets exactly that path's bytes |
| FileStore.FileSystem.ListFiles | scripts/split_dataset.py:5 | the listing names each file directly inside the folder exactly once, and nothing else |
| FileStore.Ancestry | scripts/split_dataset.py:19-20 | the folders `parents=True` creates are the non-empty prefixes of the path, the path included |
| FileStore.ApartExtended | scripts/split_dataset.py:30-31 | nothing under one of two apart folders lies under the other |
| Names.Lower | scripts/enhance_yolo_aerial.py:86 | lower-casing keeps the length and maps each character |
| Names.RFind | scripts/enhance_yolo_aerial.py:230 | the index of the last occurrence of a character, or -1 when there is none |
| Names.Suffix | scripts/enhance_yolo_aerial.py:89 | `PurePath.suffix` is empty or a dot followed by at least one character and no other dot, and ends the name |
| Names.SuffixAtLastDot | scripts/enhance_yolo_aerial.py:89 | the suffix is the tail from the last dot when that dot is neither first nor last, and empty when it is |
| Names.SuffixWithoutDot | scripts/enhance_yolo_aerial.py:89 | a name without a dot has an empty suffix |
| Names.SuffixExamples | scripts/enhance_yolo_aerial.py:89 | `a.jpg` has suffix `.jpg`, `a.tar.gz` has `.gz`, and `.bashrc` and `a.` have none |
| Names.Stem | scripts/enhance_yolo_aerial.py:230 | stem followed by suffix is the name |
| Names.SplitExtRoot | scripts/sharpen_all_images_unsharp.py:60 | `os.path.splitext(name)[0]` is a prefix of the name, cut at the last dot, and at that dot only |
| Names.SplitExtRootDropsExtension | scripts/sharpen_all_images_unsharp.py:40-60 | for a name whose lower-case form ends in a dotted extension, the root is the name without that extension |
| PathOrder.StrLtIrreflexive | scripts/enhance_yolo_aerial.py:217 | string order is irreflexive |
| PathOrder.StrLtTransitive | scripts/enhance_yolo_aerial.py:217 | string order is transitive |
| PathOrder.StrLtTotal | scripts/enhance_yolo_aerial.py:217 | two different strings are ordered one way or the other |
| PathOrder.PathLtIrreflexive | scripts/enhance_yolo_aerial.py:217 | path order, component by component, is irreflexive |
| PathOrder.PathLtTransitive | scripts/enhance_yolo_aerial.py:217 | path order is transitive |
| PathOrder.PathLtTotal | scripts/enhance_yolo_aerial.py:217 | two different paths are ordered one way or the other |
| PathOrder.PathLtAsymmetric | scripts/enhance_yolo_aerial.py:217 | path order is asymmetric |
| PathOrder.Insert | scripts/enhance_yolo_aerial.py:217 | inserting a new path into a strictly sorted list keeps it strictly sorted and adds exactly that path |
| PathOrder.SortPaths | scripts/enhance_yolo_aerial.py:217 | `sorted` of a set of paths is strictly increasing and holds exactly those paths |
| PathOrder.SortedListingUnique | scripts/enhance_yolo_aerial.py:217 | two strictly sorted lists with the same members are equal, so the sorted listing is determined by the folder |
| PathOrder.HeadIsMember | scripts/enhance_yolo_aerial.py:217 | the first path of a non-empty sorted list is a member |
| Shuffling.Swap | scripts/split_dataset.py:6 | a swap exchanges two positions and keeps every other one |
| Shuffling.ShuffleSteps | scripts/split_dataset.py:6 | the first k swap steps of `random.shuffle` keep the length |
| Shuffling.SwapPermutes | scripts/split_dataset.py:6 | a swap is a permutation |
| Shuffling.SwapKeepsDistinct | scripts/split_dataset.py:6 | a swap keeps a list free of repeats |
| Shuffling.ShufflePermutes | scripts/split_dataset.py:6 | any number of shuffle steps is a permutation, whatever the random draws |
| Shuffling.ShuffleKeepsDistinct | scripts/split_dataset.py:6 | shuffle steps keep a list free of repeats |
| Shuffling.Shuffle | scripts/split_dataset.py:6 | the in-place loop over an array, from the last index down to 1, leaves the shuffle of its old contents |
| Shuffling.ShuffledPermutes | scripts/split_dataset.py:6 | the shuffled list is a permutation of the listing, and keeps it free of repeats |
| Shuffling.ShuffleList | scripts/split_dataset.py:6 | shuffling a list in place returns the shuffle, a permutation of it |
| Splitter.TruncDiv | scripts/split_dataset.py:9-10 | `int()` of a quotient truncates toward zero, for either sign |
| Splitter.SliceBound | scripts/split_dataset.py:13-15 | a slice bound is normalised (negative from the end) and clamped to the list |
| Splitter.Slice | scripts/split_dataset.py:13-15 | a Python slice never runs out of range |
| Splitter.SlicesCover | scripts/split_dataset.py:13-15 | for non-negative t and v, `s[:t] + s[t:t+v] + s[t+v:]` is `s`, with the clamped lengths |
| Splitter.CutPartitions | scripts/split_dataset.py:12-16 | the three parts concatenate back to the shuffled list; with distinct names they are pairwise disjoint and every image is in exactly one |
| Splitter.ThreeWayPartition | scripts/split_dataset.py:12-16 | three lists that concatenate to a list of distinct names hold each of its names in exactly one of them |
| Splitter.DistinctConcatDisjoint | scripts/split_dataset.py:12-16 | the two halves of a repeat-free list share no element |
| Splitter.CutSizes | scripts/split_dataset.py:8-16 | with ratios in [0,1] summing to at most 1, train has floor(n·train), val floor(n·val), and test the rest |
| Splitter.SumOfCountsBound | scripts/split_dataset.py:9-10 | the two truncated counts are non-negative, are the floors of n·ratio, and sum to at most n |
| Splitter.SumBound | scripts/split_dataset.py:9-10 | the rational bound behind `SumOfCountsBound` |
| Splitter.DefaultCutExamples | scripts/split_dataset.py:8-16 | with 0.8/0.1, 7 images split 5/0/2 and 100 images split 80/10/10 |
| Splitter.CopyImage | scripts/split_dataset.py:23-26 | copying one image only adds files |
| Splitter.CopyPart | scripts/split_dataset.py:22-26 | copying a part only adds files |
| Splitter.CopyAll | scripts/split_dataset.py:18-26 | copying all parts only adds files |
| Splitter.DestinationUnderPart | scripts/split_dataset.py:23-26 | every destination of part k is inside `target/k` and inside no other part folder |
| Splitter.ImageDstInjective | scripts/split_dataset.py:23 | different images of one part go to different paths |
| Splitter.ImageLabelDistinct | scripts/split_dataset.py:23-26 | image and label destinations never coincide |
| Splitter.CopyImageEffect | scripts/split_dataset.py:23-26 | after one image the image destination holds the source bytes, and the label destination holds the label exactly when the label exists |
| Splitter.LabelDstInjective | scripts/split_dataset.py:24-26 | two images share a label destination only when they share a stem |
| Splitter.CopyImageFrame | scripts/split_dataset.py:23-26 | one image's copy leaves other images' destinations, absent labels' destinations and other stems' label destinations as they were |
| Splitter.DestinationsInside | scripts/split_dataset.py:23-26 | an image's two destinations lie inside its part folder |
| Splitter.SourcesOutside | scripts/split_dataset.py:23-26 | the sources lie outside every part folder when source and target are apart |
| Splitter.CopyPairEffect | scripts/split_dataset.py:23-26 | copying an image and then its existing label sets exactly those two destinations to the sources' bytes |
| Splitter.CopyPartFrame | scripts/split_dataset.py:22-26 | a part's copy changes only the destinations of its images: everything outside `target/k`, the image path of a name not in the part, the label path of an absent label and the label path of a stem no image of the part has keep their contents |
| Splitter.CopyPartOnlyDestinations | scripts/split_dataset.py:22-26 | a path that is neither the image nor the label destination of an image of the part keeps its contents |
| Splitter.CopyPartAbsentLabels | scripts/split_dataset.py:24-26 | a label missing from the source is never written into the part's labels folder |
| Splitter.OutsideNotDestination | scripts/split_dataset.py:23-26 | nothing outside `target/k` is a destination of part k |
| Splitter.StemLabelNotDestination | scripts/split_dataset.py:23-26 | a label path whose stem no image of the part has is no destination of the part |
| Splitter.OtherPartLabelNotDestination | scripts/split_dataset.py:18-26 | a label path of part k is no destination of another part |
| Splitter.CopyPartWrites | scripts/split_dataset.py:22-26 | after a part, each image is at `target/k/images/<name>` with its bytes and each existing label at `target/k/labels/<stem>.txt` with its bytes |
| Splitter.CopyPartEffect | scripts/split_dataset.py:22-26 | after a part, each image is at `target/k/images/<name>` with its bytes, each existing label at `target/k/labels/<stem>.txt`, an absent label's destination is untouched, and nothing outside `target/k` changes |
| Splitter.OutsideTarget | scripts/split_dataset.py:18-26 | a path outside `target` is outside every part folder |
| Splitter.OtherPartOutside | scripts/split_dataset.py:18-26 | part k's destinations are outside every other part's folder |
| Splitter.CopyAllStages | scripts/split_dataset.py:18-26 | the parts are copied train, val, test, each from the files the previous one left, and no part's copy touches a source image or label |
| Splitter.CopyAllFrame | scripts/split_dataset.py:18-26 | nothing outside `target` changes |
| Splitter.CopyAllWrites | scripts/split_dataset.py:18-26 | each part's images and existing labels land in that part's folders with their original bytes |
| Splitter.CopyAllSkips | scripts/split_dataset.py:18-26 | an image of no part k is not written into `target/k/images`, a missing label into no labels folder, and a label into `target/k/labels` only when part k has an image of that stem |
| Splitter.CopyAllOnlyDestinations | scripts/split_dataset.py:18-26 | a path that is no destination of any part's images keeps its contents |
| Splitter.CopyAllStemLabels | scripts/split_dataset.py:18-26 | a label is written into `target/k/labels` only when part k holds an image of that stem |
| Splitter.CopyAllEffect | scripts/split_dataset.py:18-26 | nothing outside `target` changes, so the source images and labels are copied and not moved; each part's images and existing labels land in that part's folders with their bytes; no other path changes, so an image of no part k is not in `target/k/images` and a label of a stem no image of part k has is not in `target/k/labels` |
| Splitter.PartLater | scripts/split_dataset.py:18-26 | what an earlier part writes survives the parts copied after it |
| Splitter.CopyPartStep | scripts/split_dataset.py:22-26 | copying one more image of the part's list is one more `CopyImage` step |
| Splitter.CopyImageFiles | scripts/split_dataset.py:23-26 | one loop iteration leaves the files `CopyImage` gives and creates no folder |
| Splitter.PopulatePart | scripts/split_dataset.py:19-26 | the per-part loop creates both folders and leaves the files the specification `CopyPart` gives |
| Splitter.CutMembers | scripts/split_dataset.py:12-16 | every name of every part comes from the list that was cut |
| Splitter.SliceMember | scripts/split_dataset.py:13-15 | a slice's elements come from the list |
| Splitter.ListAndShuffle | scripts/split_dataset.py:5-6 | the listing names each file of `source/images` once, and the list cut is its shuffle and a permutation of it |
| Splitter.CopyParts | scripts/split_dataset.py:18-26 | the part loop creates the six folders and leaves the files `CopyAll` gives |
| Splitter.CutPresent | scripts/split_dataset.py:5-16 | every image in a part of a permutation of the listing is in `source/images` |
| Splitter.Split | scripts/split_dataset.py:4-26 | `split` cuts the shuffle of the listing with the given ratios, creates the part folders, and leaves the files `CopyAll` gives |
| Splitter.ScriptFoldersApart | scripts/split_dataset.py:30-31 | the datasets and the split folders are pairwise apart |
| Splitter.EnhancedSourcesKept | scripts/split_dataset.py:30-31 | the raw split writes only under its own target, so every enhanced image path holds the same bytes, or stays absent, after it |
| Splitter.SplitDatasets | scripts/split_dataset.py:28-31 | each dataset's listing is exactly the images it had before the script ran, repeat-free, and its parts are the 0.8/0.1 cut of that listing shuffled with its own draws; the files end as the raw copy followed by the enhanced copy, and only the six part folders of each split are created |
| Splitter.PartsCover | scripts/split_dataset.py:12-16 | pairwise disjoint parts that together permute the listing hold each listed name in exactly one part |
| Splitter.SplitParts | scripts/split_dataset.py:5-16 | the parts together are a permutation of the listing, every listed image is in exactly one part, and train and val have floor(n·train) and floor(n·val) images with the rest in test |
| Enhance.NormExt | scripts/enhance_yolo_aerial.py:86 | a normalised extension is lower case and starts with a dot: a dotted one is just lower-cased, and an undotted one gets exactly one dot prepended |
| Names.LowerIdempotent | scripts/enhance_yolo_aerial.py:86 | lower-casing twice is lower-casing once |
| Enhance.NormExtIdempotent | scripts/enhance_yolo_aerial.py:86 | normalising an extension twice is normalising it once |
| Enhance.NormExtsCovered | scripts/enhance_yolo_aerial.py:86 | extension lists that normalise alike position by position request no extension the other does not |
| Enhance.CandidateIgnoresExtSpelling | scripts/enhance_yolo_aerial.py:85-94 | extensions given with or without a dot, in any case, select the same files |
| Enhance.ListImages | scripts/enhance_yolo_aerial.py:85-94 | the listing holds exactly the files under the folder (directly unless recursive) whose lower-cased suffix is a requested extension; line 217 sorts it |
| Enhance.ApplyDefaultPolicy | scripts/enhance_yolo_aerial.py:213-215 | with no filter flag, clahe and sharpen become true and denoise stays false; otherwise the arguments are unchanged |
| Enhance.Plan | scripts/enhance_yolo_aerial.py:160-173 | the plan has denoise only when flagged, and only first, then CLAHE, then unsharp, with their parameters |
| Enhance.PlanIgnoresClaheAndSharpen | scripts/enhance_yolo_aerial.py:160-215 | the `--clahe` and `--sharpen` flags, and hence the default policy, do not change the plan |
| Enhance.EnhanceImageComposition | scripts/enhance_yolo_aerial.py:160-173 | the enhancement is unsharp after CLAHE after the optional denoise |
| Enhance.ApplyLimit | scripts/enhance_yolo_aerial.py:222-223 | a positive limit keeps the first min(limit, N) images; zero or negative keeps all |
| Enhance.OutExt | scripts/enhance_yolo_aerial.py:232-234 | the output extension starts with a dot, and is `--output-ext` (dotted) when given |
| Enhance.OutputKeepsName | scripts/enhance_yolo_aerial.py:232-236 | without `--output-ext` an image with a suffix is written under its own name |
| Enhance.CandidateHasSuffix | scripts/enhance_yolo_aerial.py:89-94 | every listed image has a non-empty suffix |
| Enhance.Imwrite | scripts/enhance_yolo_aerial.py:101-110 | a dry run succeeds without writing; otherwise the write adds only that path and fails exactly when the encoder does |
| Enhance.SafeImwrite | scripts/enhance_yolo_aerial.py:101-110 | the method's result and new files are those of `Imwrite` |
| Enhance.CopiedLabel | scripts/enhance_yolo_aerial.py:113-120 | the label is copied to `out_labels/<stem>.txt` only when it exists and it is not a dry run |
| Enhance.CopyLabel | scripts/enhance_yolo_aerial.py:113-120 | `copy_label` returns false exactly when `in_labels/<stem>.txt` is absent, and leaves the files `CopiedLabel` gives |
| Enhance.ProcessImage | scripts/enhance_yolo_aerial.py:229-265 | an image fails to read exactly when it does not decode, and fails to write exactly when it decodes, the run is not dry and the encoder produces nothing for the enhanced image at its output path; every other image is processed, so in a dry run exactly the decodable images are; a read or write failure changes nothing; a dry run writes nothing; a processed image is written to its output path and finds its label exactly when it exists |
| Enhance.WithComparison | scripts/enhance_yolo_aerial.py:255-258 | the comparison write changes only the comparison path, and nothing without `--save-compare` or in a dry run |
| Enhance.CompareIsNotOutput | scripts/enhance_yolo_aerial.py:236-257 | the comparison never overwrites the output image, because the output extension starts with a dot |
| Enhance.LabelSourceApart | scripts/enhance_yolo_aerial.py:236-260 | when the input labels folder is not the output images folder, neither image write can land on the label source |
| Enhance.LabelFileInjective | scripts/enhance_yolo_aerial.py:113-120 | two stems share a label file only when they are equal |
| Enhance.ProcessImageFrame | scripts/enhance_yolo_aerial.py:250-262 | one image changes only its output image, its comparison and its output label; every other path keeps its contents |
| Enhance.ProcessImageWritesOutput | scripts/enhance_yolo_aerial.py:244-250 | a processed image leaves at its output path exactly the bytes the encoder produces for the resized, enhanced image with the suffix's parameters |
| Enhance.ProcessImageCopiesLabel | scripts/enhance_yolo_aerial.py:260 | a processed image whose label exists has that label, byte for byte, in the output labels folder |
| Enhance.RunFrame | scripts/enhance_yolo_aerial.py:229-265 | a path none of the later images writes keeps the contents it had after the earlier ones |
| Enhance.RunLastFrame | scripts/enhance_yolo_aerial.py:229-265 | the last image of a run changes only the paths it writes |
| Enhance.RunKeepsOtherFolders | scripts/enhance_yolo_aerial.py:229-265 | the loop never changes a path outside the two output folders, so the input images and labels are kept |
| Enhance.LabelOfOtherStem | scripts/enhance_yolo_aerial.py:250-260 | an image never writes the output label of another stem |
| Enhance.LaterImagesKeepLabel | scripts/enhance_yolo_aerial.py:229-265 | when no other image shares its stem, no later image overwrites an image's output label |
| Enhance.RunPairsLabels | scripts/enhance_yolo_aerial.py:229-264 | for a processed image whose stem no other image shares, with the three folders apart: its label is found exactly when it exists, a label not found adds one to `missing_labels`, and an existing label ends the run byte for byte in the output labels folder |
| Enhance.Run | scripts/enhance_yolo_aerial.py:225-265 | the loop never removes a file |
| Enhance.RunSnoc | scripts/enhance_yolo_aerial.py:229 | the loop over one more image is one more step |
| Enhance.RunTally | scripts/enhance_yolo_aerial.py:225-264 | every image gets one outcome: processed + failed is the number of images and missing_labels ≤ processed |
| Enhance.DryRunWritesNothing | scripts/enhance_yolo_aerial.py:102-118 | a dry run writes no file |
| Enhance.Decodable | scripts/enhance_yolo_aerial.py:238-242 | the number of images that decode is at most the number of images |
| Enhance.DryRunTally | scripts/enhance_yolo_aerial.py:229-264 | a dry run processes exactly the images that decode and counts every other image as failed |
| Enhance.EnhanceOne | scripts/enhance_yolo_aerial.py:229-265 | one iteration of the loop leaves the files and outcome `ProcessImage` gives |
| Enhance.EnhanceImages | scripts/enhance_yolo_aerial.py:225-265 | the loop leaves the files and counters of `Run` over the images |
| Enhance.EnhanceListed | scripts/enhance_yolo_aerial.py:210-265 | the output folders are created unless dry run; the listing is sorted and exact; no image gives status 1 with no file written; otherwise status 0 and the result of `Run` over the listing cut to `--limit` |
| Enhance.ListedEmpty | scripts/enhance_yolo_aerial.py:217-220 | the listing is empty exactly when no file qualifies |
| Enhance.EnhanceMain | scripts/enhance_yolo_aerial.py:193-272 | a missing input images or labels folder gives status 1 with nothing touched; no images gives status 1 with only the output folders created; otherwise status 0 after the loop with the default policy applied |
| Sharpen.LabelName | scripts/sharpen_all_images_unsharp.py:60 | the label name ends in `.txt` and starts with the image name's root |
| Sharpen.LabelNameSwapsExtension | scripts/sharpen_all_images_unsharp.py:40-60 | for an image name, the label name is the name with its matched extension replaced by `.txt` |
| Sharpen.WrapDiff | scripts/sharpen_all_images_unsharp.py:26-30 | `image - blurred` on uint8 is the difference when the sample is brighter, and that plus 256 when it is darker |
| Sharpen.Clip | scripts/sharpen_all_images_unsharp.py:27 | clipping sends negatives to 0, values above 255 to 255, and otherwise drops the fraction |
| Sharpen.ClipMonotone | scripts/sharpen_all_images_unsharp.py:27 | clipping is monotone |
| Sharpen.SampleMovesAwayFromBlur | scripts/sharpen_all_images_unsharp.py:24-33 | with the signed difference, a sample brighter than its blur never gets darker and a darker one never gets brighter |
| Sharpen.AsWrittenAgreesWhenBrighter | scripts/sharpen_all_images_unsharp.py:26-31 | where the sample is at least its blur, the script's wrapped arithmetic equals the signed one |
| Sharpen.AsWrittenWhitensDarkSide | scripts/sharpen_all_images_unsharp.py:26 | sample 10 beside blur 11 comes out 255 as written, and 8 with the signed difference |
| Sharpen.AsWrittenMaskMissesDarkSide | scripts/sharpen_all_images_unsharp.py:30 | with threshold 5, sample 10 beside blur 11 is not kept as written (255), but is kept (10) with the signed difference |
| Sharpen.UnsharpAsWritten | scripts/sharpen_all_images_unsharp.py:24-33 | the script's result has the image's size |
| Sharpen.AsWrittenThresholdMerge | scripts/sharpen_all_images_unsharp.py:29-31 | as written, with a positive threshold every sample whose wrapped difference is below it keeps its input value; with threshold 0 no sample is replaced |
| Sharpen.Sharpened | scripts/sharpen_all_images_unsharp.py:24-33 | the corrected result has the image's size |
| Sharpen.SharpenedKeepsLowContrast | scripts/sharpen_all_images_unsharp.py:24-33 | corrected: low-contrast samples are unchanged and every sample moves away from the blur |
| Sharpen.UnsharpMaskAsWritten | scripts/sharpen_all_images_unsharp.py:24-33 | blurring, sharpening every sample with the wrapped `uint8` difference, then overwriting in place every sample whose wrapped difference is below a positive threshold gives `UnsharpAsWritten` |
| Sharpen.UnsharpMask | scripts/sharpen_all_images_unsharp.py:24-33 | the corrected procedure: blurring, sharpening every sample with the signed difference, then overwriting the low-contrast samples in place gives `Sharpened` |
| Sharpen.AsWrittenNeverDarkens | scripts/sharpen_all_images_unsharp.py:26-31 | as written, no sample comes out darker than it went in: the wrapped difference is never negative |
| Sharpen.ImageNameIgnoresCase | scripts/sharpen_all_images_unsharp.py:40 | the extension test ignores case |
| Sharpen.FoldersApart | scripts/sharpen_all_images_unsharp.py:9-12 | files in the four different folders are different paths |
| Sharpen.Visit | scripts/sharpen_all_images_unsharp.py:39-65 | one listed name never removes a file |
| Sharpen.VisitEffect | scripts/sharpen_all_images_unsharp.py:39-65 | a name is counted exactly when it is an image name and readable; an uncounted name changes nothing; only the output image and output label can change; the label is copied exactly when it exists |
| Sharpen.VisitWritesImage | scripts/sharpen_all_images_unsharp.py:49-53 | a successful write puts the sharpened image under the same file name in the output folder; a failed one (unchecked) leaves it as it was |
| Sharpen.CountReadable | scripts/sharpen_all_images_unsharp.py:39-55 | the number of readable image names is at most the number of names |
| Sharpen.SharpenRunKeepsInputs | scripts/sharpen_all_images_unsharp.py:39-65 | the batch never changes a file of the input images or labels folder |
| Sharpen.SharpenRun | scripts/sharpen_all_images_unsharp.py:38-65 | the loop never removes a file and counts at most one image per listed name |
| Sharpen.SharpenRunCount | scripts/sharpen_all_images_unsharp.py:39-55 | `count` is the number of listed names that match an extension and are readable |
| Sharpen.Milestones | scripts/sharpen_all_images_unsharp.py:55-57 | one progress line per hundred images |
| Sharpen.MilestonesExact | scripts/sharpen_all_images_unsharp.py:55-57 | a progress line is printed exactly at the positive multiples of 100 up to the count |
| Sharpen.MilestonesNext | scripts/sharpen_all_images_unsharp.py:55-57 | counting one more image adds a progress line exactly at a multiple of 100 |
| Sharpen.SharpNotBelow | scripts/sharpen_all_images_unsharp.py:26-27 | with the signed difference, a sample at least its blur never gets darker |
| Sharpen.SharpNotAbove | scripts/sharpen_all_images_unsharp.py:26-27 | with the signed difference, a sample at most its blur never gets brighter |
| Sharpen.WriteThenCopy | scripts/sharpen_all_images_unsharp.py:52-65 | writing the output image and then copying an existing label changes only those two files, and the label copy has the label's bytes |
| Sharpen.SharpenRunStep | scripts/sharpen_all_images_unsharp.py:39-65 | visiting one more listed name is one more `Visit` step |
| Sharpen.VisitName | scripts/sharpen_all_images_unsharp.py:40-65 | one loop iteration leaves the files and counted flag `Visit` gives and creates no folder |
| Sharpen.VisitAll | scripts/sharpen_all_images_unsharp.py:38-65 | the loop leaves the files and count of `SharpenRun` over the listing, prints progress at `Milestones(count)` and creates no folder |
| Sharpen.SharpenAll | scripts/sharpen_all_images_unsharp.py:20-65 | the script creates both output folders, visits each file of the input folder once, leaves the files and count `SharpenRun` gives, and prints progress at `Milestones(count)` |
| DataYaml.LeadingSpaces | scripts/create_data_yaml.py:6 | the leading run of white space, and the character after it is not white space |
| DataYaml.TrailingSpaces | scripts/create_data_yaml.py:6 | the trailing run of white space, and the character before it is not white space |
| DataYaml.Strip | scripts/create_data_yaml.py:6 | `strip` gives an empty string or one without white space at either end |
| DataYaml.StripMiddle | scripts/create_data_yaml.py:6 | `strip` gives a middle slice of the line with only white space cut on either side |
| DataYaml.StripKeepsStripped | scripts/create_data_yaml.py:6 | a stripped string strips to itself |
| DataYaml.StripIdempotent | scripts/create_data_yaml.py:6 | stripping twice is stripping once |
| DataYaml.Lines | scripts/create_data_yaml.py:6 | the text is cut at every `\n` and `\r` into at least one piece, none holding a line break. This is not Python's file iteration, which gives no line for an empty file and keeps each terminator, but once pieces are stripped and blanks dropped, as the comprehension does, both give the same class names |
| DataYaml.NonBlank | scripts/create_data_yaml.py:6 | the kept lines are stripped and non-empty, and no more than the lines |
| DataYaml.Classes | scripts/create_data_yaml.py:6 | every class name is non-empty and has no white space at either end |
| DataYaml.LinesAfterPlainText | scripts/create_data_yaml.py:6 | text without a break joins the first line of what follows |
| DataYaml.LinesOfLine | scripts/create_data_yaml.py:6 | a line and its newline make one line |
| DataYaml.NonBlankCons | scripts/create_data_yaml.py:6 | a stripped line is kept as it is |
| DataYaml.NonBlankConsBlank | scripts/create_data_yaml.py:6 | a line that strips to nothing is dropped |
| DataYaml.NoClasses | scripts/create_data_yaml.py:6 | an empty file has no classes |
| DataYaml.ClassesRoundTrip | scripts/create_data_yaml.py:6 | writing stripped names one per line and reading the class list back gives the same names in the same order |
| DataYaml.Make | scripts/create_data_yaml.py:8-16 | `nc` is the number of names, `names` is the class list, `path` is `dataset/splits/<name>`, and train/val/test are the fixed image folders |
| DataYaml.Descriptors | scripts/create_data_yaml.py:17-21 | the descriptors are written to exactly `data_raw.yaml` and `data_enhanced.yaml` |
| DataYaml.CreateDataYaml | scripts/create_data_yaml.py:6-21 | without a readable class file nothing is written; otherwise exactly `data_raw.yaml` and `data_enhanced.yaml` |
| DataYaml.DescriptorsAgree | scripts/create_data_yaml.py:20-21 | the two descriptors differ only in `path` and target, carry the class list, and `dataset/data.yaml` is not written |
| DataYaml.DescriptorsNameSplits | scripts/create_data_yaml.py:10-21 | the `path` of each descriptor spells the folder `scripts/split_dataset.py` writes that dataset's split to |
| DataYaml.TargetsDiffer | scripts/create_data_yaml.py:17-21 | the two targets and `dataset/data.yaml` are three different files |
| DataYaml.SlashedSplit | scripts/create_data_yaml.py:10 | the split folder path joined with slashes is `dataset/splits/<name>` |
| DataYaml.SplitFolderNamed | scripts/create_data_yaml.py:10 | the descriptor paths spell the split folders `dataset/splits/raw` and `dataset/splits/enhanced` |
| Training.Pad | scripts/train.py:19 | zero padding gives exactly `width` decimal digits |
| Training.Value | scripts/train.py:19 | a digit string spells a number below 10^length |
| Training.ValueOfPad | scripts/train.py:19 | reading a padded number back gives the number |
| Training.PadOfValue | scripts/train.py:19 | padding a digit string's value to its length gives the string |
| Training.RunName | scripts/train.py:19-20 | the run name has 16 characters and starts with `train_` |
| Training.ParseRunName | scripts/train.py:19-20 | a parsed run name gives a valid date |
| Training.RunNameParts | scripts/train.py:19-20 | the run name is `train_`, the 4-digit year, `_`, the 2-digit month, `_`, the 2-digit day |
| Training.ParseOfRunName | scripts/train.py:19-20 | a run name is read back as its date |
| Training.RunNameOfParse | scripts/train.py:19-20 | a string read as a date is that date's run name |
| Training.RunNameRoundTrip | scripts/train.py:19-20 | a run name parses back to its date, and only the date's run name parses to it |
| Training.RunNameSameDay | scripts/train.py:19-20 | two runs get the same name exactly when they run on the same day |
| Training.Config | scripts/train.py:26-37 | the trainer's project and name place the run under `runs/detect/<run>` |
| Training.TrainsOnUnwrittenDescriptor | scripts/train.py:11-27 | the descriptor the trainer is given is not one `scripts/create_data_yaml.py` writes |
| Training.TrainMain | scripts/train.py:6-47 | `models/` is created; the best weights are copied to `models/<run>_best.pt` exactly when the trainer left them at `runs/detect/<run>/weights/best.pt`; otherwise the files are as training left them |
| Evaluation.Candidates | scripts/evaluate.py:9 | the candidates are exactly the entries of `models/` that match `<tag>_*_best.pt` |
| Evaluation.Latest | scripts/evaluate.py:15 | the chosen candidate is a candidate and no candidate has a later mtime |
| Evaluation.LatestIsFirst | scripts/evaluate.py:15 | among candidates with the greatest mtime, `max` picks the first |
| Evaluation.FindLatestModel | scripts/evaluate.py:8-17 | the result is None exactly when nothing matches; otherwise a matching entry with maximal mtime |
| Evaluation.Evaluate | scripts/evaluate.py:20-35 | without a model the evaluation is skipped; otherwise the latest model is validated on the test split of `dataset/data_<tag>.yaml` at size 640 on device 0 |
| Evaluation.EvaluateMain | scripts/evaluate.py:38-40 | the first evaluation is of the latest "raw" model on the raw descriptor, the second of the latest "enhanced" model on the enhanced descriptor, each skipped exactly when no such model exists |
| Evaluation.EvaluatesWrittenDescriptors | scripts/evaluate.py:25 | each validation reads a descriptor `scripts/create_data_yaml.py` writes |
| Evaluation.TrainedWeightsMatchOnlyTrain | scripts/evaluate.py:9 | the weights `scripts/train.py` saves match tag "train" but neither "raw" nor "enhanced" |
| Evaluation.TrainedWeightsNeverEvaluated | scripts/evaluate.py:38-40 | with only the weights `scripts/train.py` saves, both evaluations are skipped |
| Runner.FirstFailure | main.py:11-16 | the first non-zero return code, or None when all are zero |
| Runner.LaunchedCount | main.py:11-16 | stages run up to and including the first failure |
| Runner.LaunchedIffEarlierSucceeded | main.py:11-16 | a stage is launched exactly when every earlier stage returned 0 |
| Runner.FirstFailureAt | main.py:11-16 | a failure after only successes is the first failure |
| Runner.Process.Run | main.py:11-16 | `run` launches the command and exits with status 1 exactly on a non-zero return code |
| Runner.Process.RunStages | main.py:19-41 | the launched commands are the stages up to the first failure; exit status 1 exactly when one fails; the completion message exactly when all return 0 |
| Runner.MainStages | main.py:19-39 | `main.py` has three stages |
| Runner.SharpenStages | sharpen_main.py:19-48 | `sharpen_main.py` has four stages |
| Runner.MainOrder | main.py:19-39 | `main.py` runs split, descriptors, training, in that order, with the same interpreter |
| Runner.SharpenOrder | sharpen_main.py:19-48 | `sharpen_main.py` runs sharpening, split, descriptors, training in that order, and the last three carry `--datapath <root>/dataset/sharpen` |
| Runner.Pipeline | main.py:19-41 | `main.py` launches its stages up to the first failure, exits 1 on a failure, and completes exactly when all three return 0 |
| Runner.SharpenPipeline | sharpen_main.py:19-50 | `sharpen_main.py` does the same over its four stages |

## Left out

- OpenCV is modelled as opaque functions: decoding, encoding, denoising, CLAHE, Gaussian blur, `addWeighted`, resizing and the comparison image. Its pixel numerics are floating point inside a library.
- YOLO training and validation are not modelled. Training is an input function from configuration and files to files; validation appears only as the record of its arguments.
- Printing is not modelled, except the progress and completion messages, which are recorded as values.
- The randomness of `random.shuffle` is the input `pick`. Any sequence of draws with `pick(i) <= i` is allowed.
- The clock is the input date `today`. `stat().st_mtime` is the input function `mtime`.
- argparse is modelled as an `Args` record of parsed values; the parsing itself is not modelled. Command-line paths are taken as already split into components.
- YAML serialisation is not modelled; a descriptor is a record whose fields keep the key order.
- The two inference scripts, `app.py` and `scripts/enhance_dataset.py` are not part of this model. They are camera, screen and menu I/O, or thread-pool concurrency.
- Lower-casing is ASCII only, and file names are compared without Unicode normalisation.
- Directory listings return files only. `list_images` in `scripts/enhance_yolo_aerial.py` keeps files only, and in `scripts/sharpen_all_images_unsharp.py` a directory named like an image fails to decode and is skipped, so both agree with the model.
- Splitter.ListAndShuffle: lists files only. The glob `images/*` in `scripts/split_dataset.py` also yields sub-directories: they count towards the part sizes, and `shutil.copy` raises on the first one, ending the script.
- Sharpen.SharpenAll: lists a missing `dataset/raw/images` as empty and completes with count 0. In the script, `os.listdir` raises and the script ends.
- Sharpen.Visit: copies a label only when it is a file. A directory named like a label would make `shutil.copy` raise.
- Enhance.CopiedLabel: copies only a file. A directory named like a label makes `copy_label` return true but `shutil.copy2` raise.
- Training.TrainMain: copies only a file. A directory at `best.pt` would make `shutil.copy` raise.
- Splitter.CopyImage: copies only a file. A directory named like a label would make `shutil.copy` raise.
- Enhance.Imwrite: an encoder that produces nothing is a failed write, counted in `failed`, and the loop goes on. For an output extension OpenCV has no writer for, such as `--output-ext .xyz`, `cv2.imwrite` raises instead of returning False, and the script ends at the first readable image.
- Exceptions are not modelled: a missing `classes.txt`, an input images path that is a file, or a failing `mkdir`. Each of these ends the script; only the missing `classes.txt` is modelled, as `None`.
- Enhance.ProcessImage: states that the label is found exactly when it exists only when the input labels folder differs from the output images folder. When they coincide, the image just written can itself be the label file.
- Training.RunName: pads the year to four digits. The C library's `%Y` does not pad years before 1000.
- Sharpen.SharpenAll: uses the signed-difference `Sharpened`, not the wrapped arithmetic the script has (see Findings). The pixel values `imwrite` receives therefore differ from the script's on the dark side of edges.
- Sharpen.UnsharpMask: computes the corrected, signed-difference sharpening. The script's wrapped arithmetic is `Sharpen.UnsharpMaskAsWritten`, proved against `UnsharpAsWritten`.
- Sharpen.Visit: writes the corrected `Sharpened` image, so its output pixels differ from the script's on the dark side of edges. The rest of the loop (listing, reading, counting, copying labels) is the script's.
- Sharpen.VisitWritesImage: states that the corrected `Sharpened` image is written, not the script's `UnsharpAsWritten` one.
- Splitter.Split: `int(len(imgs)*train)` multiplies by the double nearest the ratio, and the model takes the exact floor of the rational ratio. The doubles nearest 0.8 and 0.1 lie just above those values, so at the script's 0.8/0.1 the two floors agree for any realistic listing size. For other ratios they can differ by one: `int(100*0.29)` is 28, while `PartCount(100, Ratio(29, 100))` is 29.
- DataYaml.Lines: splits at every line break and drops the terminators, where Python's file iteration yields no line for an empty file and keeps each line's terminator. The class list, which strips each line and drops blank ones, is the same either way.
- Sharpen.Clip: reals stand for NumPy's floating-point arithmetic. With NumPy 1.x value-based casting, `amount * (image - blurred)` on a `uint8` array is computed in float16. At amount 1.5, every value `x + 1.5·d` for bytes x and d is a multiple of 0.5 below 1024, which float16 and every wider type represent exactly, so nothing is lost at the script's settings. Other amounts may round differently.
- The `--datapath`, `--train_pct` and `--modelType` options that `main.py` and `sharpen_main.py` pass are ignored by the scripts that receive them. The model records them only in the commands.

## Findings

| source | as written | input that shows it | evidently intended | confidence | as-written member | corrected member |
|---|---|---|---|---|---|---|
| scripts/sharpen_all_images_unsharp.py:26 | `image - blurred` on uint8 arrays wraps modulo 256, so a sample darker than its blur gets a difference near 255 and saturates to white | sample 10, blur 11, amount 1.5 gives 255 | the signed difference, giving 10 - 1.5 = 8.5, so 8 | high, not executed | Sharpen.AsWrittenWhitensDarkSide | Sharpen.SampleMovesAwayFromBlur |
| scripts/sharpen_all_images_unsharp.py:30 | `np.absolute` of the wrapped uint8 difference is that difference, so the low-contrast mask misses every sample darker than its blur | threshold 5, sample 10, blur 11: the difference is 255, so the sample is not kept and becomes 255 | \|10 - 11\| = 1 < 5, so the sample keeps 10 | high, not executed | Sharpen.AsWrittenMaskMissesDarkSide | Sharpen.SharpenedKeepsLowContrast |
