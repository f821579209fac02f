# eyeball / megane augmentation adapters in Dafny

This project models the polygon ⇄ keypoint adapters of `ndgnuh/eyeball` and proves properties of them. The adapters wrap a point-based image augmentation transform.

An annotated sample holds an image, a list of polygons in normalised `[0, 1]` coordinates, and one class per polygon (optionally also one score per polygon). Encoding scales the polygons to pixels and flattens them into one keypoint list. Alongside it goes a parallel `box_mapping` that gives each keypoint's owning polygon. The transform moves the keypoints. Decoding regroups them by owner, scales them back and drops every polygon left with two points or fewer. Classes and scores are filtered in lockstep.

The repository has three versions of the adapter:

- `megane/augment/albumen.py` regroups with `toolz.groupby` (module `Albumen`).
- `megane/augment.py` regroups into lists made with `[[]] * len(sample.boxes)` (module `Augment`). Those lists are one shared list object. The model keeps list identity explicit (`Augment.Slots`), so the aliasing is reproduced rather than assumed.
- `megane2/augments.py` flattens and reshapes fixed arrays of quadrilaterals (module `Augments`).

Other modules:

- `Keypoints` holds the flattening and the `groupby` model shared by the first two versions.
- `Misc` holds the `with_batch_mode` decorator.
- `Trainer` holds the step generator and the checkpoint cadence of the trainer.
- `Configs` holds the configuration and weight-file naming rules.
- `Common` and `Data` hold the Python semantics the model relies on and the sample representation.

The Python semantics in `Common` are: results carrying Python exceptions, negative list indexing, and `zip`-based filtering.

The transform is a function parameter and is otherwise uninterpreted. Coordinates are exact reals. Scaling multiplies or divides x by the width and y by the height, and image dimensions are positive.

## Where the code departs from what one would expect

The source makes none of the promises below. They are what a reader would expect of an adapter. The model follows the code in each case.

- One would expect an identity transform to return boxes, classes and scores unchanged. In `megane/augment/albumen.py`, decode drops the scores and the polygons of at most two points (`Albumen.RoundTrip`). `megane/augment.py` as written returns every box as all the keypoints (`Augment.AliasedRoundTrip`).
- One would expect all three versions to normalise coordinates by the same image. `megane/augment/albumen.py` normalises by the transform's output image, while `megane/augment.py` and `megane2/augments.py` normalise by the input image.
- One would expect decoded boxes and classes to be equally long for every sample. In `megane/augment.py` it can fail when the sample has fewer classes than boxes, because the filter is a `zip` that stops at the shorter list (`Augment.DecodeWith`). More classes than boxes still give equal lengths, because the mask has one entry per box.

## Model

| member | source | states |
|---|---|---|
| Common.Wrap | megane/augment.py:64 | `boxes[mask]` reads a valid position exactly when `-n <= mask < n`; negative tags count from the end |
| Common.PyIndex | megane/augment/albumen.py:80 | `classes[i]` succeeds exactly for `-len <= i < len`, and it is the element at `i`, counted from the end when `i` is negative |
| Common.CompressLength | megane/augment.py:69-70 | the zip-filtered list has one element per kept position among the first `min(len(xs), len(keeps))` |
| Common.CompressLockstep | megane/augment.py:69-74 | two equally long lists filtered with the same `keeps` come out equally long |
| Common.CompressUniform | megane/augment.py:67-70 | a mask that keeps all `n` positions returns the first `min(len, n)` elements; one that keeps none returns the empty list |
| Data.ScalePolygon | megane/augment/albumen.py:40 | the scaled polygon has the same points in the same order, x times the width and y times the height |
| Data.UnscalePolygon | megane/augment/albumen.py:77 | the normalised polygon has the same points in the same order, x divided by the width and y by the height |
| Data.UnscaleScale | megane2/augments.py:83-95 | scaling to pixels and back by the same size returns the polygon exactly |
| Data.KeepMask | megane/augment.py:67 | `keeps[i]` holds exactly when box `i` has more than two points |
| Misc.Batch | megane/utils/misc.py:30 | `batch=True` gives one result per input, and result `i` is `f(x[i], args)` with the same extra arguments for every call |
| Misc.Wrapped | megane/utils/misc.py:28-31 | without `batch` the wrapper returns `f(x, args)`; with it, a list as long as `x` holding `f` of each element in order |
| Misc.BatchSmall | megane/utils/misc.py:30 | batch mode on an empty list gives an empty list, and on one element gives the single call's result |
| Keypoints.Flatten | megane/augment/albumen.py:37-42 | keypoints and box mapping are equally long, and that length is the total number of points |
| Keypoints.FlattenPlace | megane/augment/albumen.py:39-42 | point `t` of polygon `i` is keypoint `Offset(i) + t`, and its tag is `i` |
| Keypoints.FlattenTraceable | megane/augment/albumen.py:39-42 | every keypoint's tag is a polygon index, the keypoint lies in that polygon's stretch and equals the corresponding point |
| Keypoints.FlattenSorted | megane/augment/albumen.py:42 | the box mapping is non-decreasing |
| Keypoints.FlattenCounts | megane/augment/albumen.py:42 | index `i` occurs in the box mapping exactly `len(boxes[i])` times, and no other value occurs |
| Keypoints.FlattenMax | megane/augment/albumen.py:44 | the box mapping is empty exactly when no polygon has a point; otherwise its maximum is the last polygon that has one |
| Keypoints.PositionsSpec | megane/augment/albumen.py:73 | a group lists exactly the positions carrying its key, in increasing order |
| Keypoints.FirstAppearancesSpec | megane/augment/albumen.py:73 | the group keys are exactly the distinct tags |
| Keypoints.GroupBy | megane/augment/albumen.py:73 | no contract of its own; `toolz.groupby` keyed on the tag, characterised by `Keypoints.GroupByFirstAppearance` and `Keypoints.GroupByKeys` |
| Keypoints.GroupByFirstAppearance | megane/augment/albumen.py:73 | `groupby` yields one group per distinct tag, in order of first appearance, each holding that tag's positions in order |
| Keypoints.GroupByKeys | megane/augment/albumen.py:73 | the group keys of `groupby` are exactly the tags that occur |
| Keypoints.GroupByFlatten | megane/augment/albumen.py:73 | on an encoded mapping, `groupby` gives each non-empty polygon, in polygon order, the consecutive run of its own keypoints |
| Keypoints.ScaledPlace | megane/augment.py:28-33 | point `t` of box `i`, in pixels, is keypoint `Offset(i) + t` of the flattened denormalised boxes, tagged `i` |
| Keypoints.FlattenTags | megane/augment.py:31-33 | every tag of a flattened list is a polygon index |
| Keypoints.UnscaleFlatten | megane/augment.py:28-33 | normalising the flattened pixel keypoints gives the flattened original polygons |
| Albumen.Encode | megane/augment/albumen.py:33-45 | encode succeeds exactly when the last polygon with a point is the last class; it raises ValueError exactly when no polygon has a point, and otherwise AssertionError; image and classes pass through |
| Albumen.EncodePlace | megane/augment/albumen.py:39-42 | in an encoded sample, point `t` of polygon `i`, in pixels, is keypoint `Offset(i) + t`, tagged `i` |
| Albumen.EncodeMapping | megane/augment/albumen.py:39-42 | in an encoded sample the box mapping is non-decreasing, and polygon `i` occurs exactly `len(boxes[i])` times |
| Albumen.Gather | megane/augment/albumen.py:77 | gathering fails exactly when an index is past the keypoints; otherwise element `t` is `xy[idx[t]]` |
| Albumen.DecodeGroupsSpec | megane/augment/albumen.py:76-80 | the loop fails exactly when a gather fails or a surviving key is no class index; box `j` and class `j` come from the `j`-th group with more than two points |
| Albumen.SurvivingKeys | megane/augment/albumen.py:73-80 | a box index survives exactly when it occurs as a tag more than twice; an index without keypoints forms no group |
| Albumen.Decode | megane/augment/albumen.py:48-90 | no contract of its own; characterised by `Albumen.DecodeSpec` and `Albumen.RoundTrip` |
| Albumen.DecodeSpec | megane/augment/albumen.py:66-90 | decode succeeds exactly when every tag has a keypoint and every surviving index has a class; box `j` is the `j`-th surviving index's keypoints in order, scaled back by the output image, with that index's class; there are no scores |
| Albumen.RoundTrip | megane/augment/albumen.py:33-90 | encode, the identity transform and decode return exactly the polygons with more than two points, in order, with their classes and without scores |
| Augment.Encode | megane/augment.py:26-34 | encode cannot fail; it passes the image through; keypoints and box mapping are as long as the total point count, and every tag is a box index |
| Augment.EncodePlace | megane/augment.py:28-33 | point `t` of box `i`, denormalised with the sample image, is keypoint `Offset(i) + t`, tagged `i` |
| Augment.EncodeMapping | megane/augment.py:31-33 | the box mapping is non-decreasing, and box `i` occurs exactly `len(boxes[i])` times |
| Augment.Fill | megane/augment.py:62-64 | the append loop either fails or leaves the same box-to-list references |
| Augment.FillOk | megane/augment.py:62-64 | the loop fails exactly when a zipped tag is not a valid index into the boxes |
| Augment.SharedSlots | megane/augment.py:61 | `[[]] * n`: one valid reference per box; that every box refers to the same list is characterised by `Augment.FillShared` |
| Augment.FillShared | megane/augment.py:61-64 | with `[[]] * n`, the one shared list ends up holding all zipped keypoints in order, and every box refers to it |
| Augment.FillFresh | megane/augment.py:61-64 | with one list per box, box `i` ends up holding exactly the keypoints tagged `i`, in order |
| Augment.DecodeWith | megane/augment.py:57-82 | the output image is the transform's; scores are None exactly when the sample has none; equally long classes (and scores) and boxes stay equally long |
| Augment.FilterScores | megane/augment.py:71-74 | scores are None exactly when the sample's are, and otherwise are filtered with the boxes' mask |
| Augment.Decode | megane/augment.py:37-82 | no contract of its own; decode as written, characterised by `Augment.DecodeAliased` |
| Augment.DecodeFresh | megane/augment.py:57-82 | no contract of its own; decode with one list per box, characterised by `Augment.DecodeFreshSpec` |
| Augment.DecodeAliased | megane/augment.py:57-82 | as written, decode fails exactly on an invalid tag; otherwise every box is the whole zipped keypoint list normalised by the original image, and all boxes survive (more than two keypoints in all) or none does, with classes and scores cut to match |
| Augment.DecodeFreshSpec | megane/augment.py:62-74 | with one list per box, box `i` is made of the keypoints tagged `i`, survives with more than two of them, and classes and scores follow the same mask |
| Augment.Call | megane/augment.py:149-153 | no contract of its own; `Augmentation.__call__` as written, characterised by `Augment.AliasedRoundTrip` and `Augment.AliasingCounterexample` |
| Augment.CallFresh | megane/augment.py:149-153 | no contract of its own; `Augmentation.__call__` with one list per box, characterised by `Augment.FreshRoundTrip` and `Augment.AliasingFixed` |
| Augment.AliasedRoundTrip | megane/augment.py:149-153 | as written, the identity transform returns every box as the concatenation of all the polygons when there are more than two points in all, and no box otherwise |
| Augment.OwnedFlatten | megane/augment.py:62-64 | distributing a flattened polygon list back by tag gives every polygon back |
| Augment.FreshRoundTrip | megane/augment.py:149-153 | with one list per box, the identity transform returns the polygons with more than two points, with their classes and scores |
| Augment.AliasingCounterexample | megane/augment.py:61-64 | two triangles with classes 0 and 1 come back as two copies of the six points of both |
| Augment.AliasingFixed | megane/augment.py:61-64 | with one list per box, the same two triangles come back unchanged |
| Augments.TransformInput | megane2/augments.py:76-88 | the transform receives the original image and one keypoint per polygon point |
| Augments.TransformInputPlace | megane2/augments.py:82-84 | with `k` points per polygon, point `t` of polygon `i` reaches the transform as keypoint `k*i + t`, x times the width and y times the height |
| Augments.Quads | megane2/augments.py:96 | `reshape(n, 4, 2)` gives `n` polygons of four points, corner `t` of polygon `i` being keypoint `4*i + t` |
| Augments.Call | megane2/augments.py:72-98 | with no transform the inputs return unchanged; KeyError exactly when there is no `"polygons"` entry; success exactly when the polygons are regular and the transform returns 4·N > 0 keypoints; then only `"polygons"` changes, to N quadrilaterals of the transformed keypoints in order, normalised by the input image's width and height |
| Augments.QuadsFlatten | megane2/augments.py:82-96 | flattening quadrilaterals and reshaping into fours gives them back |
| Augments.IdentityRoundTrip | megane2/augments.py:76-98 | with a transform that changes nothing, a non-empty annotation of quadrilaterals returns unchanged, image included |
| Augments.FromString | megane2/augments.py:100-108 | `"default"`/`"yes"` select the default pipeline, `"none"`/`"no"` select no transform, and any other string raises KeyError |
| Augments.NoAugmentIsIdentity | megane2/augments.py:73-74 | a pipeline chosen as `"none"` or `"no"` returns image and annotation unchanged |
| Trainer.LoopOverLoader | src/trainer.py:27-37 | exactly `n` items for `n >= 1` and one item otherwise; item `k` is step `k + 1` with loader element `k mod len(loader)` |
| Trainer.PrintEvery | src/trainer.py:87-90 | a configured interval is kept; the default is at least 1, equals 1 exactly when `validate_every < 10`, and is otherwise the floor of `validate_every / 5` |
| Trainer.Checkpoint | src/trainer.py:118 | the checkpoint test raises ZeroDivisionError exactly for a zero interval |
| Trainer.CheckpointMultiples | src/trainer.py:118 | for a non-zero interval `p` of either sign, step `q*p + j` with `0 <= j < abs(p)` is a checkpoint exactly when `j == 0` |
| Trainer.CheckpointSteps | src/trainer.py:104-123 | the checkpoint steps among the first `n` are multiples of the interval within `1 .. n` |
| Trainer.TrainCheckpoints | src/trainer.py:98-123 | a run writes its checkpoints exactly at the multiples of the interval among steps `1 .. max(total_steps, 1)`, so a run with `total_steps <= 0` still checkpoints step 1 when the interval is 1; a zero interval raises ZeroDivisionError at the first step |
| Trainer.CheckpointCount | src/trainer.py:104-123 | over `n` steps with interval `p >= 1` the checkpoints are steps `p, 2p, ...`, `n / p` of them |
| Configs.Basename | megane/configs.py:20 | the basename is the suffix after the last `/` and contains no `/` |
| Configs.StripExtension | megane/configs.py:20 | the stem is a prefix; when shorter, it is followed by the last dot and preceded by a non-dot; when equal, the name has no dot, or only dots precede its last dot |
| Configs.Read | megane/configs.py:19-21 | a `"name"` is added exactly when missing, as the file's stem; every existing key keeps its value |
| Configs.DefaultName | megane/configs.py:19-20 | `<dir>/<stem>.<ext>` gives the name `<stem>`, inner dots included |
| Configs.NoExtension | megane/configs.py:20 | a basename without a dot is itself the name |
| Configs.LatestWeightName | megane/configs.py:110-111 | the latest weights file is the model name followed by `.latest.pt` |
| Configs.BestWeightName | megane/configs.py:114-115 | the best weights file is the model name followed by `.best.pt` |
| Configs.WeightNamesDistinct | megane/configs.py:110-115 | a latest weights file never has the name of a best weights file, whatever the two model names |
| Configs.WeightNamesInjective | megane/configs.py:110-115 | different model names give different weight files |

## Left out

- The albumentations pipelines (`Augmentation.__init__`, `default_transform`, `default_augment`) are opaque library transforms. The transform is a function parameter, and `Augments.FromString` takes the default pipeline as a parameter.
- `eyeball/aug.py`, the models and the rest of `Trainer` are left out: randomised image operations, PyTorch, logging and file I/O.
- `Trainer.train` writes each checkpoint to `self.model_config.latest_weight_path`. The trainer's `ModelConfig` and `TrainConfig` come from `src/structures.py`, which is not part of this model, so that path is not modelled. At the end `train` calls `save_model()` without the `save_path` argument that `save_model` requires. Only the cadence is modelled.
- Image conversions (`np.array(image)`, `Image.fromarray`) are left out: an image is carried through as an opaque value with a positive width and height.
- Python assertions are assumed to be enabled. Under `python -O` the assertion at line 44 of `megane/augment/albumen.py` is skipped together with its `max`, so encode would never fail. The assertion at line 83 always holds in the model.
- Floating-point rounding in scaling is not modelled. Coordinates are exact reals, so scaling round trips are exact.
- numpy integer dtypes are not modelled. In megane2, in-place `/=` on an integer keypoint array would fail; keypoints here are always reals.
- Augments.Call: a ragged polygon list is modelled as ValueError, which is what current numpy raises; older numpy built an object array instead.
- Augments.Call: an empty transform output fails with IndexError because its array is one-dimensional. That holds when the transform returns a plain list, as albumentations does.
- Augments.Call: the mutation of the caller's annotation dictionary is modelled as returning the updated dictionary.
- Trainer.LoopOverLoader requires a non-empty loader, because on an empty one the generator never yields and never returns.
- Trainer.LoopOverLoader models the loader as one fixed sequence replayed each pass. A shuffling loader would reorder each pass.
- Trainer.PrintEvery: the `None` default is modelled as `train` handles it. Whether the trainer's `TrainConfig` can leave `print_every` unset is not known, because `src/structures.py` is not part of this model.
- Configs.Read: YAML parsing, pydantic validation and field defaults are left out. A YAML document that is not a mapping is not modelled.
- `save_args` in `megane/utils/misc.py` is left out: it inspects the caller's stack frame.
- `megane.data.Sample`, `simpoly` and `utils.normalize_polygon` are not part of this model. They are represented by the `Data` module's sample and point-wise scaling.

## Findings

| source | as written | input that shows it | evidently intended | confidence | as-written member | corrected member |
|---|---|---|---|---|---|---|
| megane/augment.py:61 | `[[]] * len(sample.boxes)` makes every box the same list object, so each keypoint is appended to all boxes | a 1×1 image with two triangles of classes 0 and 1, through the identity transform: both boxes come back as all six points | one new list per box, so box `i` collects the keypoints tagged `i` and the round trip returns the sample | not executed | Augment.AliasingCounterexample | Augment.FreshRoundTrip |
