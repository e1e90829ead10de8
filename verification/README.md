# Pod image table — a Dafny model

`kubernetes-get-images.py` lists the pods of a Kubernetes cluster, optionally in one
namespace, and prints a grid with one row per pod: the pod's name in cyan and the
comma-separated images of its containers in magenta. This project models the pure data
path of that script: extracting a pod's images, joining them with `", "`, colouring the
two cells, appending rows to the table, and the loop in `main` that does this for every
pod in the order the cluster returned them.

Modules, one per file:

- `PodModel` (`pods.dfy`): `Container(image)`, `Pod(name, containers)`, the two-cell
  `Row(pod, images)` (the list `[pod, images]` of the script) and `Table`.
- `ImageExtraction` (`images.dfy`): `get_images_from_pod`.
- `Joining` (`join.dfy`): `list_to_comma_string`, i.e. `", ".join`.
- `Colouring` (`colours.dfy`): `str_to_cyan`, `str_to_magenta` and their inverse. The
  colour and reset codes come from an external styling library; they are the fields of a
  `Palette` value passed to every coloured operation, so each property holds whatever
  bytes those codes are.
- `TableBuilding` (`table.dfy`): `add_to_table` and the row-building loop of `main`, both
  as a pure `BuildTable(palette, pods)` and as the loop itself (`RunLoop`).

The cluster query is not modelled: the pod sequence it returns is an input.

The model follows the script where a cleaner design would differ. The colour codes are
part of the cell strings, because the script adds them before the table is rendered;
they are not a separate step applied after rendering. A pod without a container list, or
a container without an image, makes the script raise; neither is read as an empty image
list (see "Left out").

## Model

| member | source | states |
|---|---|---|
| ImageExtraction.Images | kubernetes-get-images.py:31-32 | one image per container, element `i` is container `i`'s image: no sorting, dedup or filtering |
| ImageExtraction.ImagesOfPod | kubernetes-get-images.py:31-32 | the pod's image list has one entry per container in container order, and is empty exactly when the pod has no containers |
| ImageExtraction.ImagesConcat | kubernetes-get-images.py:32 | extraction of a concatenated container list is the concatenation of the extractions, so relative order is kept |
| Joining.Join | kubernetes-get-images.py:39-40 | for a non-empty list the joined length is the sum of the element lengths plus 2 for each of the n-1 separators |
| Joining.JoinSmall | kubernetes-get-images.py:39-40 | joining nothing gives `""`; joining one string gives that string with no separator |
| Joining.JoinSnoc | kubernetes-get-images.py:40 | for a non-empty list, joining `xs + [y]` is joining `xs`, then `", "`, then `y` |
| Joining.JoinEmptyIff | kubernetes-get-images.py:40 | the joined string is empty if and only if the list is empty or is one empty string |
| Joining.OffsetNext | kubernetes-get-images.py:40 | consecutive elements start one element and one separator apart in the joined string |
| Joining.JoinPieces | kubernetes-get-images.py:40 | every element appears unchanged at its offset in the joined string, followed by `", "` unless it is the last |
| Colouring.Wrap | kubernetes-get-images.py:43-48 | the wrapped string is the prefix, then the text, then the suffix, and its length is their summed lengths |
| Colouring.UnwrapWrap | kubernetes-get-images.py:43-48 | stripping the known prefix and suffix from a wrapped text gives the text back |
| Colouring.Cyan | kubernetes-get-images.py:43-44 | the cyan text is the text plus the constant cyan and reset overhead, and unwrapping it returns the text |
| Colouring.Magenta | kubernetes-get-images.py:47-48 | the magenta text is the text plus the constant magenta and reset overhead, and unwrapping it returns the text |
| Colouring.ColourInjective | kubernetes-get-images.py:43-48 | two texts with equal cyan (or equal magenta) decorations are equal |
| TableBuilding.AddToTable | kubernetes-get-images.py:35-36 | the table grows by exactly one row `[pod, images]` at the end and every existing row is unchanged |
| TableBuilding.BuildTable | kubernetes-get-images.py:59-65 | one row per pod in input order; row `i` is the cyan name and the magenta joined images of pod `i` |
| TableBuilding.RunLoop | kubernetes-get-images.py:53-65 | the loop started from the empty table ends with the table `BuildTable` describes, with as many rows as pods |
| TableBuilding.BuildTableConcat | kubernetes-get-images.py:59-65 | the table for `a + b` is the table for `a` followed by the table for `b` |
| TableBuilding.BuildTablePrefix | kubernetes-get-images.py:59-65 | the rows built for the first `k` pods are the first `k` rows of the final table |
| TableBuilding.EmptyPodKept | kubernetes-get-images.py:59-65 | a pod with no containers is not omitted; its image cell is the magenta empty string |
| TableBuilding.RowsRecoverPods | kubernetes-get-images.py:59-65 | stripping the colour codes from row `i` gives pod `i`'s name and its comma-joined images |
| TableBuilding.ThreePodScenario | kubernetes-get-images.py:59-65 | pods A (one image), B (two images) and C (none) give three rows in that order, with `"img-y:2.0, img-z:3.0"` for B and `""` for C |

## Left out

- Loading the kube config and constructing the API client at import time
  (kubernetes-get-images.py:10-11): ambient external I/O.
- The cluster queries `get_pods_all_namespaces` and `get_pods_from_namespace`
  (kubernetes-get-images.py:23-28) and the choice between them in `main` (54-57): network
  calls into the Kubernetes client library; the returned pod sequence is an input here.
- Argument parsing (kubernetes-get-images.py:12-16, 52): command-line glue.
- The grid rendering and printing (kubernetes-get-images.py:66): a call into the
  `tabulate` library, whose width and border logic is not visible, so nothing is claimed
  about column widths or how the colour codes affect them.
- The concrete bytes of the colour codes and the coloured `TABLE_HEADERS`
  (kubernetes-get-images.py:18-21): they come from the styling library and are kept as
  the opaque fields of `Palette`.
- The namespace and every other field of a pod or container: the script reads only the
  pod's name and its containers' images.
- A container whose image is missing: the client library allows it and `", ".join`
  would then raise; the model gives every container a string image. A pod without a
  container list likewise would raise in the list comprehension and is not modelled.
- A pod whose name is missing: the f-string in `str_to_cyan` renders it as the text
  `None`; the model gives every pod a string name.
- AddToTable: returns a new table instead of appending to the caller's list in place
  (kubernetes-get-images.py:35-36); the two agree because the table is local to `main`
  and nothing else refers to it.
