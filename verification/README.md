# A verified model of the libgphoto2 core

This project models six components of the C library libgphoto2 in Dafny and proves what each of them
promises, for every input, every run, or every reachable state.

* **Virtual filesystem** (`References`, `Lru`, `Paths`, `FsTree`, `FsAgree`, `FsCamera`, `FsSteps`,
  `FsCacheSpec`, `Filesystem`, `FsFiles`, `FsFolders`, `FsCache`, `FsScan`, `FsMoments`, `FsRun`, `FsLimits`). A
  folder tree filled on demand from the camera, with dirty flags, and a list of files with cached data threaded
  through the same file nodes. The camera is a value: folders with names, and bytes for each file and kind of
  data. The heap structure is related to a value, the state, and each operation is proved to take states to
  states; what the states keep is then proved on values. `FsRun.Run` puts the operations together: over every
  run, with whatever bytes are stored and fed, a listed folder caches exactly the camera's names, the list is a
  duplicate-free doubly linked sequence of live files, bounded and in the order of feeding, and the reference
  count of every file object is the number of its holders plus the number of slots it is in. `FsRun.Transparent`
  adds that the cache cannot be told from the camera as long as the operations were honest: they cached nothing
  the camera does not have.
* **AHD demosaicing** (`AhdPicture`, `AhdWindow`, `AhdScan`, `AhdRun`, `AhdEdges`, `AhdSymmetry`). `AhdPicture` is
  the whole-image definition; the next three prove that the six-row window that overwrites the image it reads
  computes it; the last two prove what it is for: stripes and straight edges come out without colour fringes, and
  left and right are treated alike.
* **Bilinear demosaicing** (`Mosaic`, `Accrue`, `BayerArray`, `Reflection`, `BayerSymmetry`). In place equals out of
  place; storage order is a permutation; estimates are the means of their neighbours, stay between them, and
  commute with reflecting the picture.
* **Camera life cycle** (`CameraLife`). An automaton says which sequences of events are legal; the object with
  its counters and flags is proved to produce only those, whatever driver callbacks do meanwhile.
* **Settings** (`Settings`). Printer and parser with an exact condition for the round trip, and the persistence
  of values over runs with restarts.
* **File objects** (`CameraFile`). A byte queue, in memory or on a descriptor.

Pictures are total functions from coordinates and channel to a byte; rasters are flat arrays. Methods follow
the C functions in their branches and in what they update; the functions beside them say what the updates mean.

Where the promise does not hold, the exact condition is proved instead, and a concrete input is given:
`FsFolders.PutFile` with `FsLimits.OverwriteLeavesStale`, `FsFolders.EmptyCheckExact` with
`FsLimits.RemoveLosesFiles` and `FsLimits.RemoveLosesUnlisted`, `FsSteps.ShotAgreesExact` with
`FsLimits.UnannouncedIsMissing`, `FsFiles.ListFilesFailing` with `FsLimits.FailedListingDisagrees`,
`FsRun.StaysExact` with `FsLimits.DeletionLeavesSize`, `Settings.RoundTrip` and `Settings.Run` with
`Settings.LineBreakIsLost`, and `CameraLife.Camera.Operation` with `CameraLife.StuckAfterFailedInit`.

Where the code and its comments differ, the model follows the code:

* `libgphoto2/libgphoto2/ahd_bayer.c:540-547` says that window row 4 is fully interpolated when the loop begins.
  It has its greens only; the loop completes it.
* `libgphoto2/libgphoto2/ahd_bayer.c:563-571` says that the scores of rows y-1, y and y+1 are needed. The scores of
  image row 0 are never computed and count as 0, while a black row below the image is scored.
* `libgphoto2/libgphoto2/gphoto2-filesys.c:1230-1233` says that the folder to be removed has neither files nor folders.
  Only what is cached of it is looked at.
* `libgphoto2/libgphoto2/gphoto2-camera.c:285-287` says that the camera is initialised again when it is accessed. After
  an opening that failed in this build it is not, until it is exited.

`dafny verify dfyconfig.toml` checks the project.

## Model

| member | source | states |
|---|---|---|
| `BayerArray.StorageIsPermutation` | libgphoto2/libgphoto2/bayer.c:111-124 | For every width, odd or even, the interlaced storage order and its inverse are permutations of the columns |
| `BayerArray.ExpandLosesNothing` | libgphoto2/libgphoto2/bayer.c:74-128 | The sensor raster can be read back exactly from the expanded picture, and the expanded raster has the same sum, for all eight tilings |
| `BayerArray.GpBayerExpand` | libgphoto2/libgphoto2/bayer.c:74-128 | The output becomes the rendering of the expanded picture; a tiling outside the enumeration leaves it alone |
| `Mosaic.TablesAgree` | libgphoto2/libgphoto2/bayer.c:37-45 | The table of tile colours says of every pixel which channel its site senses |
| `Mosaic.RenderAt` | libgphoto2/libgphoto2/bayer.c:130-134 | The flat raster shows every channel of every pixel of the picture it renders at the index the address macro computes |
| `BayerArray.ReadsOnlySensed` | libgphoto2/libgphoto2/bayer.c:166-246 | For every tiling and pixel, all neighbours from which a missing channel is computed were sensed in that channel |
| `BayerArray.DependsOnSamplesOnly` | libgphoto2/libgphoto2/bayer.c:146-251 | The interpolated picture depends on the sensed channels of its source only |
| `BayerArray.SampleSurvives` | libgphoto2/libgphoto2/bayer.c:146-251 | While a pixel is being written every other pixel still shows its sample, written or not |
| `BayerArray.EstimateInPlace` | libgphoto2/libgphoto2/bayer.c:146-251 | What an estimate reads from the half-written raster is what it would read from the untouched one |
| `BayerArray.InterpolatePixel` | libgphoto2/libgphoto2/bayer.c:166-246 | One turn of the loop writes exactly the channels that the pixel did not sense, with the out-of-place values |
| `BayerArray.GpBayerInterpolate` | libgphoto2/libgphoto2/bayer.c:146-251 | Interpolating in place yields the picture in which every neighbour is read from the untouched image; a raster narrower or lower than two pixels is refused unchanged |
| `BayerArray.GreenSiteIsMean` | libgphoto2/libgphoto2/bayer.c:180-240 | At a green site each missing colour is the mean, rounded down, of the two neighbours that sensed it, left and right or above and below, and at the border the value of the only one |
| `BayerSymmetry.BilinearOfMirror` | libgphoto2/libgphoto2/bayer.c:146-251 | For every size and tiling, interpolating the picture reflected left to right or top to bottom gives the reflection of the interpolated picture, at every pixel and in every channel |
| `Reflection.SiteOfMirror` | libgphoto2/libgphoto2/bayer.c:153-172 | Reflecting a mosaic gives a mosaic of the four tilings: another one if the columns or rows exchanged are even in number, the same one otherwise |
| `BayerArray.BilinearStaysInRange` | libgphoto2/libgphoto2/bayer.c:175-248 | No interpolated value leaves the range of the samples, whatever the other channels held |
| `BayerArray.BilinearFlat` | libgphoto2/libgphoto2/bayer.c:175-248 | A flat sensor field of value v gives v in all three channels of every pixel |
| `BayerArray.DecodeKeepsSamples` | libgphoto2/libgphoto2/bayer.c:370-378 | The sensor raster can still be read back from the decoded picture |
| `BayerArray.GpBayerDecode` | libgphoto2/libgphoto2/bayer.c:370-378 | Expanding and interpolating composes to the interpolated picture of the expanded one, and reports success even where interpolation is refused; with a tiling outside the enumeration what the output held is interpolated as RGGB |
| `Accrue.AboveCount` | libgphoto2/libgphoto2/bayer.c:322-349 | Four values never all exceed the floor of their mean, and none does only if all are equal, so the divisor of the outlier branch is 3 |
| `Accrue.EstimateBounds` | libgphoto2/libgphoto2/bayer.c:262-350 | The estimate lies between the least and the greatest of the neighbours that exist |
| `Accrue.EstimateIgnoresMissing` | libgphoto2/libgphoto2/bayer.c:262-350 | Neighbours outside the image do not influence the estimate |
| `Accrue.LineSurvives` | libgphoto2/libgphoto2/bayer.c:300-321 | A one-pixel green line is continued: equal values along it win over differing values across it |
| `Accrue.EdgeTest` | libgphoto2/libgphoto2/bayer.c:300-321 | Green is the mean along the flatter direction where one squared difference exceeds twice the other, and is estimated like red and blue everywhere else |
| `Accrue.MeanOfExisting` | libgphoto2/libgphoto2/bayer.c:322-334 | With a neighbour outside the image the estimate is the mean of the others, rounded down |
| `Accrue.NoOutlier` | libgphoto2/libgphoto2/bayer.c:335-349 | If two values exceed the mean and two do not, the mean of all four is taken |
| `Accrue.EstimateOfSwap` | libgphoto2/libgphoto2/bayer.c:262-350 | The estimate does not depend on the order of the neighbours; for green, not on their order within the row and within the column |
| `Accrue.OutlierDropped` | libgphoto2/libgphoto2/bayer.c:322-349 | A value alone on its side of the mean is dropped and the other three are averaged |
| `Accrue.AverageWithoutOutlier` | libgphoto2/libgphoto2/bayer.c:322-349 | The loop that splits the values at the mean computes the mean without the odd one out |
| `Accrue.GpBayerAccrue` | libgphoto2/libgphoto2/bayer.c:262-350 | With at least one neighbour inside the image the loops compute the estimate; no division by zero, no value outside a byte |
| `AhdWindow.DoGreenCtrRow` | libgphoto2/libgphoto2/ahd_bayer.c:233-315 | One window row in both directions gets the greens of the whole-image reconstruction of that image row, the rest of the windows staying as it was |
| `AhdWindow.DoRbCtrRow` | libgphoto2/libgphoto2/ahd_bayer.c:97-218 | With its two neighbour rows carrying at least their greens, the centre row becomes the complete whole-image reconstruction of that row |
| `AhdScan.DistancesAgree` | libgphoto2/libgphoto2/ahd_bayer.c:80-86 | Distances computed from the flat window are the distances of the reconstructed picture |
| `AhdScan.GetDiffsRow2` | libgphoto2/libgphoto2/ahd_bayer.c:327-379 | Row 2 of the score tables gets the scores of the image row in window row 3; the outer columns are not written |
| `AhdScan.NineSumIsHomogeneity` | libgphoto2/libgphoto2/ahd_bayer.c:571-590 | The sum over flat indices equals the two-dimensional sum over the pixel and its neighbours, because scores in the outer columns are 0 |
| `AhdScan.SumNine` | libgphoto2/libgphoto2/ahd_bayer.c:580-589 | The byte counter holds the nine-point sum: it never wraps |
| `AhdScan.ChooseRow` | libgphoto2/libgphoto2/ahd_bayer.c:580-602 | Row y of the image becomes row y of the whole-image result, later rows staying raw |
| `AhdScan.CompleteWindows` | libgphoto2/libgphoto2/ahd_bayer.c:549-561 | With window rows 2 and 3 complete and row 4 green, loading the next raw row leaves rows 2 to 4 complete and row 5 green |
| `AhdScan.SlideWindows` | libgphoto2/libgphoto2/ahd_bayer.c:603-606 | Moving both windows up by a row re-establishes what the next turn needs |
| `AhdScan.Turn` | libgphoto2/libgphoto2/ahd_bayer.c:549-608 | One turn of the sliding-window loop finishes one image row and keeps the window, score and image invariants |
| `AhdRun.Prime` | libgphoto2/libgphoto2/ahd_bayer.c:500-548 | The start-up brings the windows into the state the loop begins with |
| `AhdRun.GpAhdInterpolate` | libgphoto2/libgphoto2/ahd_bayer.c:418-616 | For every size with w >= 2 and h >= 3 and every tiling, the six-row sliding window run in place yields exactly the whole-image result: two complete reconstructions of the original image and a choice per pixel by 3x3 score sums |
| `AhdPicture.AhdKeepsSamples` | libgphoto2/libgphoto2/ahd_bayer.c:590-601 | Every pixel keeps the sample the sensor took there |
| `AhdPicture.AhdFlat` | libgphoto2/libgphoto2/ahd_bayer.c:119-216 | A flat sensor field of value v gives v in all three channels of every pixel |
| `AhdPicture.GreenIsCorrectedMean` | libgphoto2/libgphoto2/ahd_bayer.c:247-311 | Away from the border green is the mean of its two neighbours along the line, corrected by the curvature of the site's own colour there, rounded down and clamped |
| `AhdPicture.StripedFilled` | libgphoto2/libgphoto2/ahd_bayer.c:119-311 | On a picture of stripes, every sample of a row or of a column being equal, the reconstruction along the stripes is the grey of the stripe in every channel of every pixel |
| `AhdEdges.StripesKept` | libgphoto2/libgphoto2/ahd_bayer.c:591-601 | Where the scores along the stripes sum to more than those across them, the result is the grey of the stripe |
| `AhdEdges.TieIsMean` | libgphoto2/libgphoto2/ahd_bayer.c:591-601 | Where the two sums are equal, the result is the mean of both reconstructions, rounded down |
| `AhdEdges.TwoColumnsTie` | libgphoto2/libgphoto2/ahd_bayer.c:334-334 | With two columns no pixel is scored and every choice is a tie |
| `AhdEdges.EdgeKept` | libgphoto2/libgphoto2/ahd_bayer.c:418-616 | From three columns and rows on, for every tiling, a straight edge between black and white, horizontal or vertical, wherever it lies and whichever side is dark, comes out as that edge, grey in all channels of every pixel: no colour fringes |
| `AhdSymmetry.FilledOfMirror` | libgphoto2/libgphoto2/ahd_bayer.c:97-315 | Both reconstructions of a picture reflected left to right or top to bottom are the reflected reconstructions |
| `AhdSymmetry.AhdOfMirror` | libgphoto2/libgphoto2/ahd_bayer.c:418-616 | Demosaicing a picture reflected left to right gives the reflected result, for every size and tiling |
| `AhdPicture.AhdDependsOnSamplesOnly` | libgphoto2/libgphoto2/ahd_bayer.c:418-616 | The result depends on the sensed channels of the source only |
| `AhdPicture.RowBelowIsScored` | libgphoto2/libgphoto2/ahd_bayer.c:549-572 | The row below the image is scored as if it were black: three points in both directions, a fourth exactly where a reconstruction is black in the last row |
| `AhdPicture.LineBelow` | libgphoto2/libgphoto2/ahd_bayer.c:549-572 | The line of scores in that row is three for each scored column and one for each black pixel of the last row above it |
| `AhdPicture.RowBelowTipsNoChoice` | libgphoto2/libgphoto2/ahd_bayer.c:549-572 | What that row adds to one direction over the other in the last row is exactly the difference of the numbers of black pixels nearby, so it tips no choice exactly if these are equal |
| `AhdRun.AhdDecodeKeepsSamples` | libgphoto2/libgphoto2/ahd_bayer.c:639-646 | The sensor raster can still be read back from the demosaiced picture |
| `AhdRun.GpAhdDecode` | libgphoto2/libgphoto2/ahd_bayer.c:639-646 | Expanding and demosaicing composes to the whole-image result on the expanded picture, or, with a tiling outside the enumeration, on what the output held, as RGGB |
| `Lru.List.ListedIffBackLink` | libgphoto2/libgphoto2/gphoto2-filesys.c:1946-1982 | In an intact list a node is listed exactly if its back link is set |
| `Lru.List.Bypass` | libgphoto2/libgphoto2/gphoto2-filesys.c:1953-1979 | Unlinking joins the neighbours, repairs both ends and touches no other link |
| `Lru.List.RemoveOne` | libgphoto2/libgphoto2/gphoto2-filesys.c:1946-1982 | A listed node is taken out of the sequence and the list stays intact; a node outside it is refused |
| `Lru.List.RemoveAll` | libgphoto2/libgphoto2/gphoto2-filesys.c:305-349 | Taking several nodes off leaves the others in order, with every other node listed or unlinked as before; the nodes taken off hold no file afterwards, and every file counts its references |
| `Lru.FileNode.DropHeavy` | libgphoto2/libgphoto2/gphoto2-filesys.c:2003-2022 | The normal, raw and audio data are given up, their bytes added up, and every file counts its references, be it in several of the slots |
| `Lru.FileNode.DropAll` | libgphoto2/libgphoto2/gphoto2-filesys.c:816-844 | All six slots of a file are empty, and every file counts its references |
| `Lru.List.PushBack` | libgphoto2/libgphoto2/gphoto2-filesys.c:2121-2140 | A node outside the list becomes its last, with a self-link if it is the only one |
| `Lru.List.FreeFirst` | libgphoto2/libgphoto2/gphoto2-filesys.c:1984-2024 | The first node leaves the list and loses normal, raw and audio data only; the size falls by their bytes, and every file counts its references |
| `Lru.List.Count` | libgphoto2/libgphoto2/gphoto2-filesys.c:2026-2040 | The walk counts the listed nodes that hold normal, raw or audio data |
| `Lru.List.Check` | libgphoto2/libgphoto2/gphoto2-filesys.c:2156-2184 | On an intact list the integrity check reports no corruption |
| `Lru.List.Clear` | libgphoto2/libgphoto2/gphoto2-filesys.c:1910-1944 | Clearing an intact list reports no corruption and unlinks every node |
| `Lru.MinusMinus` | libgphoto2/libgphoto2/gphoto2-filesys.c:1946-1982 | Removals compose: taking out one set of nodes and then another is taking out both, in the same order |
| `Paths.CompsOfSlashes` | libgphoto2/libgphoto2/gphoto2-filesys.c:379-384 | Repeated slashes add no component to a path |
| `Paths.CompsOfRun` | libgphoto2/libgphoto2/gphoto2-filesys.c:386-423 | A run of other characters after a slash is exactly one further component |
| `Paths.CompsOfJoined` | libgphoto2/libgphoto2/gphoto2-filesys.c:379-423 | Taking components undoes putting slashes between legal names |
| `FsAgree.Ahead` | libgphoto2/libgphoto2/gphoto2-filesys.c:378-386 | Skipping slashes and finding the next one isolates the next component, so the part before it is a shorter absolute path |
| `FsTree.WithFolderKeeps` | libgphoto2/libgphoto2/gphoto2-filesys.c:508-531 | Hanging a new folder keeps the tree a tree in which no name occurs twice |
| `FsTree.WithFilesKeeps` | libgphoto2/libgphoto2/gphoto2-filesys.c:305-349 | Replacing the files of one folder keeps the tree a tree and changes the set of its file nodes by exactly these files |
| `FsTree.WithoutFolderKeeps` | libgphoto2/libgphoto2/gphoto2-filesys.c:351-364 | Removing a folder without subfolders keeps the tree a tree and loses exactly the files of that folder |
| `FsTree.PrunedStep` | libgphoto2/libgphoto2/gphoto2-filesys.c:476-487 | Pruning a subfolder and removing it is a step towards pruning the folder |
| `FsTree.ChildIff` | libgphoto2/libgphoto2/gphoto2-filesys.c:405-423 | A path has a folder exactly if its parent lists its last component |
| `Filesystem.Filesystem.constructor` | libgphoto2/libgphoto2/gphoto2-filesys.c:658-679 | A new filesystem has an unlisted root and an empty list |
| `Filesystem.Filesystem.AppendFolderOne` | libgphoto2/libgphoto2/gphoto2-filesys.c:508-531 | One new, unlisted, empty folder hangs in front of the others; nothing else has changed |
| `Filesystem.Filesystem.InternalAppend` | libgphoto2/libgphoto2/gphoto2-filesys.c:717-744 | A new file without data is added at the end, unless one of that name is there |
| `Filesystem.Filesystem.AddFile` | libgphoto2/libgphoto2/gphoto2-filesys.c:596-619 | A file whose normal data is the file object handed in is added at the end of the folder, outside the list, and holds a reference to it |
| `Filesystem.Filesystem.DeleteAllFiles` | libgphoto2/libgphoto2/gphoto2-filesys.c:305-349 | All files of a folder are gone from the tree and from the list, whose order is otherwise kept |
| `Filesystem.Filesystem.DeleteFile` | libgphoto2/libgphoto2/gphoto2-filesys.c:813-855 | One file is gone from the tree and from the list; all else stays |
| `Filesystem.Filesystem.DeleteFolder` | libgphoto2/libgphoto2/gphoto2-filesys.c:351-364 | A folder without subfolders is gone with its files, from the list too |
| `Filesystem.Filesystem.RecurseDeleteFolder` | libgphoto2/libgphoto2/gphoto2-filesys.c:476-487 | Exactly everything below a folder is gone, and the list loses exactly the files that the tree loses |
| `Filesystem.Filesystem.LookupFolder` | libgphoto2/libgphoto2/gphoto2-filesys.c:366-429 | For every spelling of an absolute path, a folder is returned exactly if every component exists on the camera; the recursion through listing terminates; a lookup of a path already listed changes nothing, any other leads to an unlisted, empty folder; every folder listed on the way holds the camera's folders, the last one listed first |
| `Filesystem.Filesystem.MakeListed` | libgphoto2/libgphoto2/gphoto2-filesys.c:389-412 | A folder not listed yet is listed, and its subfolders are unlisted and empty; a listed one is left alone |
| `Filesystem.Filesystem.ListFolders` | libgphoto2/libgphoto2/gphoto2-filesys.c:1018-1064 | A folder already listed returns the names it has in their order; any other returns the camera's in the opposite order, index by index, everything cached below it being gone; each name is there once, and the tree agrees with the camera afterwards |
| `Filesystem.Filesystem.DeleteAllFolders` | libgphoto2/libgphoto2/gphoto2-filesys.c:489-505 | Everything cached below a folder about to be listed is gone and nothing else is affected |
| `Filesystem.Filesystem.AppendFolders` | libgphoto2/libgphoto2/gphoto2-filesys.c:1046-1050 | Hanging the listed folders one by one, each in front of the others, gives the folder exactly the camera's names in the opposite order, all unlisted |
| `Filesystem.Filesystem.EvictFirst` | libgphoto2/libgphoto2/gphoto2-filesys.c:1984-2024 | The state after an eviction is the evicted state, on an intact list |
| `Filesystem.Filesystem.MoveToEnd` | libgphoto2/libgphoto2/gphoto2-filesys.c:2086-2145 | The file is last in the list, listed before or not, and the size counts its new data instead of the old of that kind |
| `Filesystem.Filesystem.CheckList` | libgphoto2/libgphoto2/gphoto2-filesys.c:2156-2184 | In every intact state the integrity check reports no corruption |
| `Filesystem.Filesystem.ClearList` | libgphoto2/libgphoto2/gphoto2-filesys.c:1910-1944 | The list is empty, all files are unlinked, the tree is as before |
| `Filesystem.Filesystem.CacheData` | libgphoto2/libgphoto2/gphoto2-filesys.c:2234-2271 | The file object takes the slot, the one there before is given up, and every file counts its references, be it the same object |
| `Filesystem.Filesystem.LetGoFile` | libgphoto2/libgphoto2/gphoto2-file.c:183-194 | A reference given up outside the cache: the file object is freed exactly if nobody holds it any more and no file of the tree has it in a slot |
| `Filesystem.Filesystem.Balances` | libgphoto2/libgphoto2/gphoto2-file.c:166-194 | In every intact state the reference count of a file object is the number of its holders plus the number of slots, of files that are in the tree, that it is in; it is freed exactly at 0, and no slot holds a freed one |
| `FsAgree.PrunedAgrees` | libgphoto2/libgphoto2/gphoto2-filesys.c:476-505 | Pruning below an unlisted folder keeps the folder names in agreement with the camera and no surviving folder has its files touched |
| `FsAgree.MissingOnCamera` | libgphoto2/libgphoto2/gphoto2-filesys.c:405-429 | A component that its listed folder does not have leads to no folder of the camera |
| `FsAgree.LazilyTwice` | libgphoto2/libgphoto2/gphoto2-filesys.c:366-429 | Listings on demand compose: the list loses exactly what the tree loses over both |
| `FsAgree.LostTwice` | libgphoto2/libgphoto2/gphoto2-filesys.c:476-487 | Two removals compose to one |
| `FsCamera.FilledListed` | libgphoto2/libgphoto2/gphoto2-filesys.c:970-990 | Emptying a folder, marking it clean and adding new files is listing it: no other file is affected |
| `FsCamera.ListedFaithful` | libgphoto2/libgphoto2/gphoto2-filesys.c:970-990 | Listing on demand never makes cached data differ from the camera's |
| `FsCamera.WithoutDirLegal` | libgphoto2/libgphoto2/gphoto2-filesys.c:1273-1275 | A camera that loses a folder with all its contents still has a tree of folders |
| `FsSteps.FileDeleted` | libgphoto2/libgphoto2/gphoto2-filesys.c:1134-1141 | Deleting a file on the camera and then in the tree keeps the names in agreement, and data faithful that was |
| `FsSteps.DirtyAgrees` | libgphoto2/libgphoto2/gphoto2-filesys.c:912-921 | While a folder is marked dirty any of its files may be gone from the camera without disagreement |
| `FsSteps.EmptiedAgreesOnlyIfEmpty` | libgphoto2/libgphoto2/gphoto2-filesys.c:978-981 | An emptied folder marked clean disagrees with a camera that has files there |
| `FsSteps.DirMade` | libgphoto2/libgphoto2/gphoto2-filesys.c:1200-1204 | Making a folder on the camera and hanging it keeps the agreement |
| `FsSteps.DirRemoved` | libgphoto2/libgphoto2/gphoto2-filesys.c:1273-1275 | Removing a folder on the camera and in the tree keeps the agreement, whatever the camera lost with it |
| `FsSteps.Overwritten` | libgphoto2/libgphoto2/gphoto2-filesys.c:1316-1322 | Storing over a cached file keeps the names in agreement, and faithful data faithful exactly if everything cached for the file is still what the camera has |
| `FsSteps.StoredNew` | libgphoto2/libgphoto2/gphoto2-filesys.c:1318-1322 | Adding a new file with the bytes handed in keeps the names in agreement, and faithful data faithful exactly if the folder is unlisted or the camera delivers these bytes as its normal data |
| `FsAgree.RootedPruned` | libgphoto2/libgphoto2/gphoto2-filesys.c:476-505 | That a folder with files is reached through listed folders only survives pruning below any folder |
| `FsSteps.ShotAgreesExact` | libgphoto2/libgphoto2/gphoto2-filesys.c:746-776 | Until the driver announces a captured file the tree disagrees with the camera exactly if the listing that lacks it is cached: of the files of its folder or, if the folder is new too, of the folders of its parent |
| `FsSteps.FolderIsMissing` | libgphoto2/libgphoto2/gphoto2-filesys.c:763-766 | If the folder of a captured file is not found, it is the only component that its listed parent lacks |
| `FsSteps.FolderHung` | libgphoto2/libgphoto2/gphoto2-filesys.c:763-766 | Hanging that folder leaves only the captured file unknown |
| `FsSteps.FileNoted` | libgphoto2/libgphoto2/gphoto2-filesys.c:771-775 | Adding the captured file, unless it is there, brings the tree into agreement |
| `FsFiles.Relist` | libgphoto2/libgphoto2/gphoto2-filesys.c:970-990 | A folder not listed yet gets new file nodes with exactly the camera's names in the camera's order |
| `FsFiles.ListFiles` | libgphoto2/libgphoto2/gphoto2-filesys.c:952-1002 | The names returned are, each once, the cached ones in their order if the folder was listed, and otherwise the camera's in the camera's order; a folder already listed is not asked for again |
| `FsFiles.ListFilesFailing` | libgphoto2/libgphoto2/gphoto2-filesys.c:976-981 | When the driver fails to list the files the folder is left empty and clean, so tree and camera agree afterwards exactly if the driver was not asked or the camera has no files there; faithful data stays faithful |
| `FsFiles.LookupFile` | libgphoto2/libgphoto2/gphoto2-filesys.c:431-473 | A file is found exactly if the camera has it; a missing folder and a missing file are told apart |
| `FsFiles.DeleteFile` | libgphoto2/libgphoto2/gphoto2-filesys.c:1113-1142 | The outcome follows from the camera alone; a deletion removes exactly that file on both sides, a refusal changes neither; the tree agrees afterwards, whatever bytes are cached, and faithful data stays faithful |
| `FsFiles.DeleteOneByOne` | libgphoto2/libgphoto2/gphoto2-filesys.c:857-875 | The folder is cleared completely unless the camera refuses one of its files; what is left then is exactly the files listed up to and including the last refused one, and the agreement holds |
| `FsFiles.DeleteAll` | libgphoto2/libgphoto2/gphoto2-filesys.c:891-937 | Whether the driver clears the folder, cannot, or fails after deleting any part of it, the tree agrees with the camera afterwards, and success means the camera has no file left; after a refusal it has exactly the files listed up to and including the last refused one, of the listing cached before or, after a failure, of what the driver left |
| `FsFolders.MakeDir` | libgphoto2/libgphoto2/gphoto2-filesys.c:1183-1204 | A folder is made on both sides or, if the camera refuses, on neither |
| `FsFolders.RemoveDir` | libgphoto2/libgphoto2/gphoto2-filesys.c:1217-1277 | A folder whose cached contents look empty is removed on both sides if the camera agrees; otherwise nothing is removed and the outcome says why |
| `FsFolders.EmptyCheckExact` | libgphoto2/libgphoto2/gphoto2-filesys.c:1254-1270 | For every folder of the camera: one with contents passes the check exactly if it is not looked at, because its parent was not listed, or if all that is cached of it is empty and what is not empty was never listed |
| `FsFolders.PutFile` | libgphoto2/libgphoto2/gphoto2-filesys.c:1292-1323 | The new file is last in its folder with the bytes handed in cached as normal data; names agree afterwards in every case; faithful data stays faithful exactly unless a listed file is overwritten whose cached data differs, or the bytes of a new one are not the camera's normal data for it |
| `FsFolders.NewIsNotSpoiled` | libgphoto2/libgphoto2/gphoto2-filesys.c:1316-1322 | A file stored under a new name, with the bytes that the camera then delivers, is never such a case |
| `FsFolders.Reset` | libgphoto2/libgphoto2/gphoto2-filesys.c:630-647 | From any intact state, agreeing or not, only the unlisted root is left and the list is empty; every file object then counts exactly those who hold it outside, and those that nobody holds are freed |
| `FsFolders.AppendToFolder` | libgphoto2/libgphoto2/gphoto2-filesys.c:534-579 | The first folder missing along the path is created, and nothing else has changed; what follows it in the path is dropped; if none is missing, the folder is returned and nothing has changed |
| `FsFolders.NoteFile` | libgphoto2/libgphoto2/gphoto2-filesys.c:767-775 | A file that appeared in a folder of the tree is in the tree afterwards, once, and the tree agrees |
| `FsFolders.Append` | libgphoto2/libgphoto2/gphoto2-filesys.c:746-776 | The same when its folder is new as well |
| `FsFolders.CaptureFile` | libgphoto2/libgphoto2/gphoto2-filesys.c:746-776 | A capture followed by the driver's note leads from agreement to agreement with the camera that has the new file |
| `FsCacheSpec.TrimmedIsSuffix` | libgphoto2/libgphoto2/gphoto2-filesys.c:2084-2089 | Pruning takes files from the front of the list only, and only if there were too many |
| `FsCacheSpec.TrimmedIsExact` | libgphoto2/libgphoto2/gphoto2-filesys.c:2084-2089 | After pruning exactly the permitted number of listed files hold significant data, if there were more |
| `FsCacheSpec.TrimmedKeepsData` | libgphoto2/libgphoto2/gphoto2-filesys.c:2006-2022 | Pruning drops normal, raw and audio data of the evicted files and nothing else |
| `FsCacheSpec.FedBound` | libgphoto2/libgphoto2/gphoto2-filesys.c:2041-2154 | After feeding at most one more than the permitted number of listed files hold significant data |
| `FsCacheSpec.FedOrder` | libgphoto2/libgphoto2/gphoto2-filesys.c:2041-2154 | One feeding: the file is last, and before it an end of the old list, in the same order and with the same data |
| `FsCacheSpec.FedKeepsLight` | libgphoto2/libgphoto2/gphoto2-filesys.c:2200-2275 | Feeding never drops previews, EXIF data or metadata of any file |
| `FsCacheSpec.FedFaithful` | libgphoto2/libgphoto2/gphoto2-filesys.c:2200-2275 | Feeding keeps faithful data faithful exactly if the camera's own data is fed, and names in agreement in any case |
| `FsCacheSpec.FedSized` | libgphoto2/libgphoto2/gphoto2-filesys.c:2003-2145 | Feeding keeps the size equal to the bytes of normal, raw and audio data in the list, except exactly when such data is fed to a file that is not listed and already holds such data of another kind |
| `FsCacheSpec.RemovalSized` | libgphoto2/libgphoto2/gphoto2-filesys.c:305-349 | Removing files keeps that equality exactly if none of the removed listed files held such data |
| `FsCacheSpec.SparedSized` | libgphoto2/libgphoto2/gphoto2-filesys.c:366-505 | Steps that spare the files of clean folders, like every listing on demand, take nothing off the list and keep that equality |
| `FsCache.Prune` | libgphoto2/libgphoto2/gphoto2-filesys.c:2084-2089 | The pruning loop terminates and leaves the trimmed state |
| `FsCache.LruUpdate` | libgphoto2/libgphoto2/gphoto2-filesys.c:2042-2154 | Room is made and the file moves to the end, with the size following its data |
| `FsCache.SetFileNoop` | libgphoto2/libgphoto2/gphoto2-filesys.c:2200-2275 | The state after feeding is that of the specification, in any state that agrees with the camera; faithful data stays faithful exactly if the camera's own data was fed |
| `FsCache.GetFile` | libgphoto2/libgphoto2/gphoto2-filesys.c:1532-1616 | As long as the cached data is faithful the result is what asking the camera directly gives, for any history of evictions; data comes from the cache exactly if something is cached, from a file object that was not freed, and otherwise from the camera |
| `FsRun.Step` | libgphoto2/libgphoto2/gphoto2-filesys.c:746-1323 | Every operation, with whatever bytes, keeps: the tree agrees with the camera, the list is intact with live files only, bounded, and in order, file objects count their references; faithful data stays faithful exactly if the operation was honest |
| `FsRun.Run` | libgphoto2/libgphoto2/gphoto2-filesys.c:746-1323 | The same over every run of operations, puts and feeds of any bytes among them, and of making, holding and letting go file objects; a folder that holds files stays reachable through listed folders, the integrity check passes, and every reference count is the number of holders and slots |
| `FsRun.Transparent` | libgphoto2/libgphoto2/gphoto2-filesys.c:1556-1588 | At every moment of a run whose operations were honest so far all cached data is the camera's, and what is got, from the cache or past it, is what the camera would have delivered at that moment |
| `FsRun.StaysExact` | libgphoto2/libgphoto2/gphoto2-filesys.c:746-2271 | Over every run the size is exact as long as no unlisted file is fed normal, raw or audio data while it holds such data of another kind, and no listed file with such data is deleted; the first such operation makes it wrong |
| `FsRun.StaysInFeedOrder` | libgphoto2/libgphoto2/gphoto2-filesys.c:2041-2154 | Over every run the list is in the order in which its files were last fed: those evicted are the ones fed least recently |
| `FsRun.Start` | libgphoto2/libgphoto2/gphoto2-filesys.c:658-679 | A new filesystem has all the properties that runs keep |
| `FsLimits.OverwriteLeavesStale` | libgphoto2/libgphoto2/gphoto2-filesys.c:1316-1322 | A concrete run in which old bytes are returned after a file was overwritten on the camera: storing over a file whose bytes are cached |
| `FsLimits.RemoveLosesFiles` | libgphoto2/libgphoto2/gphoto2-filesys.c:1254-1275 | A concrete run in which a folder with a file in it, never seen, passes the check for emptiness and is removed |
| `FsLimits.RemoveLosesUnlisted` | libgphoto2/libgphoto2/gphoto2-filesys.c:1254-1275 | The same for a folder that was seen when its parent was listed |
| `FsLimits.UnannouncedIsMissing` | libgphoto2/libgphoto2/gphoto2-filesys.c:431-473 | A concrete run in which a captured file that the driver did not announce is not found |
| `FsLimits.FailedListingDisagrees` | libgphoto2/libgphoto2/gphoto2-filesys.c:976-981 | A concrete run in which a failing listing leaves a folder of the camera empty and clean |
| `FsLimits.DeletionLeavesSize` | libgphoto2/libgphoto2/gphoto2-filesys.c:813-855 | A concrete run in which the bytes of a deleted file stay in the size, for good: starting over leaves the size of an empty list alone |
| `FsLimits.LastFirst` | libgphoto2/libgphoto2/gphoto2-filesys.c:857-875 | A concrete run: the root folders a and b are listed as b, a; of the files x, y and z, y being refused, x and y are left |
| `FsScan.CompsOfPathString` | libgphoto2/libgphoto2/gphoto2-filesys.c:1475-1491 | The string built with a doubled leading slash has exactly the components of the path |
| `FsScan.FolderScan` | libgphoto2/libgphoto2/gphoto2-filesys.c:1462-1495 | The search succeeds exactly if some cached folder holds the name, and returns the path string of the first such folder in depth-first order |
| `FsScan.FoundIsSettled` | libgphoto2/libgphoto2/gphoto2-filesys.c:1462-1495 | A cached folder that holds a file is reached through listed folders only, and the string built for it spells its path |
| `FsScan.FindAndLookUp` | libgphoto2/libgphoto2/gphoto2-filesys.c:1462-1530 | Searching all cached folders and looking up the string found returns the very folder that the search found, and changes nothing; nothing is found exactly if no cached folder holds the file |
| `Settings.PrintedEntry` | libgphoto2/libgphoto2/gphoto2-setting.c:276-282 | The printed line of a clean entry is read at once, passes the check and is taken apart into the entry, even if its value is empty or contains equals signs |
| `Settings.ReadIsClean` | libgphoto2/libgphoto2/gphoto2-setting.c:219-239 | Whatever the file, the entries read from it are clean |
| `Settings.RoundTrip` | libgphoto2/libgphoto2/gphoto2-setting.c:173-287 | Loading after saving restores the table exactly if and only if all entries are clean: id and key not empty and without equals sign or line break, value without line break |
| `Settings.LineBreakIsLost` | libgphoto2/libgphoto2/gphoto2-setting.c:173-287 | A value with a line break does not survive saving and loading |
| `Settings.PutLookup` | libgphoto2/libgphoto2/gphoto2-setting.c:108-134 | After setting a value it is found, and every other lookup is unchanged |
| `Settings.Store.VerifySettings` | libgphoto2/libgphoto2/gphoto2-setting.c:136-171 | The file is accepted exactly if every line longer than two characters has two equals signs, and is thrown away otherwise |
| `Settings.Store.LoadSettings` | libgphoto2/libgphoto2/gphoto2-setting.c:173-243 | The table in memory becomes what the file says |
| `Settings.Store.ParseFile` | libgphoto2/libgphoto2/gphoto2-setting.c:219-239 | The loop over the lines fills the table with the entries of the file |
| `Settings.Store.SaveSettings` | libgphoto2/libgphoto2/gphoto2-setting.c:246-287 | The file becomes the printed table |
| `Settings.Store.Get` | libgphoto2/libgphoto2/gphoto2-setting.c:76-95 | The value of the first matching entry, or an error and an empty value, from memory whatever the file holds; settings are loaded on first use |
| `Settings.Store.Set` | libgphoto2/libgphoto2/gphoto2-setting.c:108-134 | The caller sees the table with the value set, the file holds it printed; another process sees the same settings exactly if all entries are clean |
| `Settings.Store.Restart` | libgphoto2/libgphoto2/gphoto2-setting.c:173-243 | A new process sees what is in the file; if that is the printed table, it is what was seen before exactly if all entries were clean |
| `Settings.CleanLookups` | libgphoto2/libgphoto2/gphoto2-setting.c:219-282 | All entries are clean exactly if every value that can be looked up is, as long as an entry hidden behind another one of its name is clean |
| `Settings.Run` | libgphoto2/libgphoto2/gphoto2-setting.c:76-287 | After any run of writes, reads and restarts every lookup returns the last value written, if what was last written is clean whenever a process ends and the table has room for the keys that are new; another process sees the same settings exactly if it is clean at the end |
| `CameraLife.Camera.Operation` | libgphoto2/libgphoto2/gphoto2-camera.c:924-942 | A wrapped operation succeeds exactly if the connection was or became usable, the operation is supported, and every driver function called succeeds, and reports a driver error exactly if one of these fails; it calls none of them if it ends as not supported or not opened, and otherwise as many as the function before it lets go on; inside another operation it is turned away. It leaves the camera idle or freed; a camera not freed counts as open afterwards, be it after a failed opening, exactly if nothing that ran, the opening included, asked for an exit, and then exactly the timeouts run that the driver left running |
| `CameraLife.TimeoutsKept` | libgphoto2/libgphoto2/gphoto2-camera.c:1959-2024 | Whatever the driver does, a timeout that it does not stop keeps running |
| `CameraLife.FailuresAreReported` | libgphoto2/libgphoto2/gphoto2-camera.c:197-209 | A concrete life: a failure of the function before an operation, of the operation and of the function after it each end in a driver error, after one, three and three calls |
| `CameraLife.Camera.CallAll` | libgphoto2/libgphoto2/gphoto2-camera.c:138-210 | The function before the operation, the operation, the function after it: a failure of the first skips the rest, a failure of the second does not skip the third, and it succeeds exactly if all called succeed |
| `CameraLife.Camera.InitNow` | libgphoto2/libgphoto2/gphoto2-camera.c:716-912 | Opening forgets an earlier exit request and counts as done even if it fails; an exit is requested afterwards exactly if the driver asked for it meanwhile |
| `CameraLife.Camera.Unused` | libgphoto2/libgphoto2/gphoto2-camera.c:62-71 | At the end of an operation an exit asked for is done and a camera nobody holds is freed, in this order |
| `CameraLife.Camera.Exit` | libgphoto2/libgphoto2/gphoto2-camera.c:293-340 | Between operations the connection is closed and every timeout stopped; during one the exit is only noted |
| `CameraLife.Camera.AddRef` | libgphoto2/libgphoto2/gphoto2-camera.c:540-548 | One more reference, nothing else |
| `CameraLife.Camera.Release` | libgphoto2/libgphoto2/gphoto2-camera.c:561-582 | The last reference frees the camera at once between operations and never during one; releasing what nobody holds is refused |
| `CameraLife.Camera.FreeNow` | libgphoto2/libgphoto2/gphoto2-camera.c:595-634 | A camera is freed only idle and closed |
| `CameraLife.Camera.BeginTimeout` | libgphoto2/libgphoto2/gphoto2-camera.c:1959-1986 | The timeouts remembered are exactly those that run |
| `CameraLife.Camera.EndTimeout` | libgphoto2/libgphoto2/gphoto2-camera.c:2000-2024 | A known timeout is stopped and forgotten once; an unknown one, or one without a stop function, changes nothing |
| `CameraLife.NotClosedWhileBusy` | libgphoto2/libgphoto2/gphoto2-camera.c:302-310 | In every legal trace nothing closes or frees the camera between the beginning and the end of an operation |
| `CameraLife.FreedOnce` | libgphoto2/libgphoto2/gphoto2-camera.c:595-634 | In every legal trace the camera is freed at most once |
| `CameraLife.EntersAndLeaves` | libgphoto2/libgphoto2/gphoto2-camera.c:62-71 | In every legal trace every operation that began has ended, except one that still runs |
| `CameraLife.Live` | libgphoto2/libgphoto2/gphoto2-camera.c:62-634 | Over every life, whatever drivers do from within their callbacks, the trace follows the protocol, by which an operation calls the driver's functions in order, the use count is back at 0, no close or free is owed, a requested exit has unset the library, and a freed camera is unheld and closed |
| `CameraLife.StuckAfterFailedInit` | libgphoto2/libgphoto2/gphoto2-camera.c:881-901 | A concrete life in which a failed opening keeps a later operation from opening the connection until an exit |
| `CameraFile.File.Append` | libgphoto2/libgphoto2/gphoto2-file.c:204-237 | A file in memory grows by exactly the bytes; a descriptor takes exactly what its successive writes take, and the call succeeds exactly if that is everything |
| `CameraFile.File.Slurp` | libgphoto2/libgphoto2/gphoto2-file.c:253-266 | The next bytes are copied, as many as wanted and available, and the read position moves by them |
| `CameraFile.Queue` | libgphoto2/libgphoto2/gphoto2-file.c:204-266 | Any interleaving of appending and reading is a queue: what was read is the beginning of what was appended |
| `References.Unref` | libgphoto2/libgphoto2/gphoto2-file.c:183-194 | A slot gives up its file object, and every file object still counts its holders and slots |
| `References.Ref` | libgphoto2/libgphoto2/gphoto2-file.c:166-174 | A slot takes a file object that somebody holds, and every file object still counts its holders and slots |
| `References.LetGo` | libgphoto2/libgphoto2/gphoto2-file.c:183-194 | A holder gives up a file object, which is freed exactly if nobody and no slot holds it |
| `References.Ledger.FreedIffUnheld` | libgphoto2/libgphoto2/gphoto2-file.c:183-194 | A file object is freed exactly when nobody and no slot holds it |

## Left out

- Integer widths and allocation: sizes, counters and indices are unbounded; no allocation fails. The use counter of a camera is proved to stay at most 1, and score sums to fit their byte.
- Sizes below the domain of `gp_ahd_interpolate`: with fewer than two columns or three rows its start-up reads outside the image.
- The arrays `homo_ch` and `homo_cv` of `gp_ahd_interpolate`: each entry is used only in the turn of its column, so the model keeps the two sums of the current column.
- The `next` chains of folders and files are sequence fields; the list through `lru_prev` and `lru_next` is modelled link by link.
- Driver callbacks that are missing (operations answer "not supported") and cancellation: callbacks are present, and each says whether it succeeds. A driver that fails changes nothing on the camera, except that a failed call for deleting a whole folder may have deleted part of it.
- Filesystem.Filesystem.AppendFolderOne: needs a name that the folder does not have yet; the code does not look, and its callers pass names the camera has just listed or made.
- FsFolders.Append: covers files of which at most the folder is new with them, because the code drops the rest of a path with more missing components and notes the file in the wrong folder.
- FsFolders.CaptureFile: covers files that are new on the camera, because a capture does not overwrite.
- FsCache.GetFile: does not model names and MIME types of the file object handed in, which do not influence the bytes.
- FsCache.LruUpdate: takes the number of pictures to keep as fixed for the filesystem; the code reads it from the settings once.
- File information (`get_info`, `set_info`), modification times, storage information, EXIF parsing (not compiled in this build), counting and numbering files, `gp_filesystem_read_file` and the scan through a 128-byte path buffer.
- Listing folders when the camera fails to: the code returns before it changes anything. A failing listing of files is modelled by itself (`FsFiles.ListFilesFailing`) and not among the operations of a run, because the tree need not agree with the camera after it.
- CameraLife.Camera.Operation: covers drivers whose exit function does not call back into the camera, and connections opened by operations; a frontend that opens the connection itself, or detects the model, takes the same path without the use counter.
- CameraLife.Camera.Exit: needs a frontend that supplies both timeout functions or neither, because without a stop function the loop over the pending timeouts does not end.
- Settings.Store.Set: needs entries shorter than the 256-byte buffers and a table of at most 512 entries, because the code copies without a check.
- Settings.Store.SaveSettings: does not model a file that cannot be opened for writing, nor the directory it is in.
- CameraFile.File.Slurp: covers files in memory that were not cleaned, because cleaning does not reset the read position; reading from descriptors and files with handlers are input and output.
- File objects are not changed once they are handed to the filesystem: in the cache they are bytes and a count, and the queue of `CameraFile` is a class of its own.
- Names derived from types, loading of driver libraries, detection of cameras, port settings, logging, translated messages, the PTP transport, lists, gamma tables, user interface.
