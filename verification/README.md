# Hoku: star identification, modelled and proved

Hoku matches unlabelled points of an image ("body" stars) to the stars of a catalogue ("inertial"
stars). This project models its hard core and proves what that core promises:

* **Rotation algebra** (`Libm.dfy`, `Vector3.dfy`, `Quaternion.dfy`, `FromTo.dfy`, `Matrix3x3.dfy`,
  `Inverse.dfy`, `Conversions.dfy`, `Rotation.dfy`, `Degenerate.dfy`): quaternion rotation, the
  four-branch conversion from matrix to quaternion, and TRIAD. `Star.dfy` and `AngleLaws.dfy` treat
  angles of separation.
* **Features of three stars** (`Trio.dfy`, `SphericalMoment.dfy`).
* **Catalogue and lookup tables** (`Chomp.dfy`, `PairTable.dfy`, `TrioTable.dfy`), and the order in
  which loops go through pairs and trios of stars (`Enumeration.dfy`).
* **Identification**: the overlay and the direct match test (`Identification.dfy`), by pairs
  (`Angle.dfy`, `AngleTruth.dfy`), by pyramids (`Common.dfy`, `Pyramid.dfy`, `PyramidTruth.dfy`), by
  triangles with the pivot search (`Pivot.dfy`, `BaseTriangle.dfy`, `TriangleTruth.dfy`) and by single
  triangles (`CompositePyramid.dfy`). `Image.dfy` says what it means for an image to show catalogue
  stars.
* **Test images** (`Shuffling.dfy`, `Benchmark.dfy`), **trials** that identify them and score the
  result (`Experiment.dfy`), and **buffered logging** (`Sqlite.dfy`, `Lumberjack.dfy`).

`Sequences.dfy` holds the standard algorithms on lists that all of them use.

Conventions. `double` is modelled by `real`, so nothing speaks about rounding or NaN; the one place
where the code relies on NaN, the angle with a zero vector, is written out. Square root, arc cosine
and the factor from radians to degrees are values of the datatype `Libm`; the only law used is that
the square root is one. Where an angle must be bounded by others, the laws of the arc cosine are
added as the predicate `AngleLaws.Laws`: it decreases from `Acos(-1)` to 0 and satisfies the formula
for a sum. The product of two numbers is written `Times` where a proof passes it around. A
quaternion, a matrix and a vector are values. The objects of the identification methods, the
catalogue, the test image, the logger, the statement and the transaction are classes whose methods
update their fields, and every method is proved against a function or a predicate over values. Error
codes and their values are those of the source, and contracts write the values out; an exception is a
`Failure`. What a loop visits is stated by a list: `visited` is the part of that list tried without
success, `found` the entry that gave the answer or exhausted the budget of accesses.

Where code and comments disagree, the code is modelled:

* The pyramid loops never use the last star of the image, although the comment promises "n choose 3"
  trios. Both enumerations are proved exact (`PyramidTriosExact`, `PaperTriosExact`).
* The comparison of six list sizes in front of two direct match tests never holds, since it
  compares the result of one comparison with the next size (`GuardNeverFires`). These tests
  therefore always answer; ties go to the first order.
* The logger clears its buffer before COMMIT. `FlushReturnsIff` says exactly when a flush stores its
  trials and returns.
* The reduction of the composite method passes the area where the moment belongs.
  `ReductionFindsRowIff`, `ReductionMissesTheTruth` and `ReductionCanMiss` say what that costs.
* A pivot that starts with the last star of the image as its third star makes one query and stops,
  although other stars are queued (`PivotOrder`).
* A pyramid never answers three stars of which two measured angles are equal: the star where the two
  sides meet is then counted twice (`AlikeSidesAreNotAnswered`, `IsoscelesTriosAreNotAnswered`).
* Extra light and removed light leave the answers as they are, although all lists are then shuffled by
  copies of one engine: `AnswersAfterExtraLight` and `AnswersAfterRemoval` say exactly when the answers
  stay beside their stars.
* The score of a trial asks for matching contents and labels, but accepts any label found within the
  field of view of its star: exchanged labels count as correct (`ThreeLabelsCountThree`).
* `FromToRotation` fails when the cosine of the angle is below -0.99999 but the vectors are not exactly
  opposite, and for exactly opposite ones when the first lies on one of two half axes
  (`FromToRotationIsCorrect`).

## Model

| member | source | states |
|---|---|---|
| Vectors.BinetCauchy | include/third-party/gmath/Vector3.hpp:389-405 | cross and dot product fit together: (p x q).(u x v) is the difference of products of dot products |
| Vectors.Lagrange | include/third-party/gmath/Vector3.hpp:389-405 | the squared length of a cross product and the squared dot product add up to the product of the squared lengths |
| Vectors.NormalizedIsUnit | include/third-party/gmath/Vector3.hpp:459-465 | normalizing any nonzero vector gives a unit vector of which the vector is a multiple |
| Vectors.AngleDependsOnDotAndLengths | include/third-party/gmath/Vector3.hpp:368-374 | the angle is a function of the dot product and the two squared lengths alone |
| Vectors.AngleSymmetric | include/third-party/gmath/Vector3.hpp:368-374 | the angle does not depend on the order of the vectors, also when one is zero |
| Vectors.AngleIsArcCosine | include/third-party/gmath/Vector3.hpp:368-374 | for nonzero vectors the angle is the arc cosine of the dot product over the product of the lengths, which lies between -1 and 1, so that neither clamp is ever needed; with a zero vector it is that of -1 |
| Quaternions.MultiplyAssociative | include/third-party/gmath/Quaternion.hpp:682-691 | the quaternion product is associative |
| Quaternions.NormMultiplies | include/third-party/gmath/Quaternion.hpp:512-518 | the norm of a product is the product of the norms |
| Quaternions.RotateByProduct | include/third-party/gmath/Quaternion.hpp:715-722 | rotating by a product is rotating twice, for all quaternions |
| Quaternions.RotateDotCross | include/third-party/gmath/Quaternion.hpp:715-722 | rotation keeps dot products up to the fourth power of the norm and commutes with the cross product up to its square |
| Quaternions.RotateNormalized | include/third-party/gmath/Quaternion.hpp:520-523 | normalizing gives a unit quaternion that rotates the same way, without the stretching |
| Quaternions.InverseUndoesRotation | include/third-party/gmath/Quaternion.hpp:432-436 | the inverse of any nonzero quaternion is a left inverse and takes the rotation back |
| FromTo.FromToRotationIsCorrect | include/third-party/gmath/Quaternion.hpp:418-430 | for all nonzero vectors: if the cosine of their angle is at least -0.99999, takes the first onto the direction of the second; below that, if and only if they are exactly opposite and the first is off the negative X and the negative Z axis |
| FromTo.FromToRotationIsUnitIff | include/third-party/gmath/Quaternion.hpp:418-430 | for all nonzero vectors it returns a unit quaternion, except the zero quaternion when the cosine is below -0.99999 and the first lies on one of those two half axes |
| FromTo.BackwardToForwardFails | include/third-party/gmath/Quaternion.hpp:418-430 | a concrete failure: from backward to forward |
| Matrices.RotationMeansOrthonormal | include/third-party/gmath/Matrix3x3.hpp:306-315 | a matrix with right-handed orthonormal rows is the same as an orthonormal matrix with determinant 1 |
| Matrices.RotationCofactors | include/third-party/gmath/Matrix3x3.hpp:306-315 | every entry of a rotation matrix is its own cofactor |
| Matrices.TransposeUndoes | include/third-party/gmath/Matrix3x3.hpp:423-436 | the transpose of a rotation matrix takes the rotation back |
| Matrices.ApplyProduct | include/third-party/gmath/Matrix3x3.hpp:487-522 | applying a matrix product is applying the factors one after the other |
| Matrices.RotationKeepsCross | include/third-party/gmath/Matrix3x3.hpp:515-522 | rotation matrices commute with the cross product |
| Matrices.RotationProduct | include/third-party/gmath/Matrix3x3.hpp:487-501 | the product of rotation matrices is one |
| MatrixInverses.InverseUndoes | include/third-party/gmath/Matrix3x3.hpp:346-359 | the inverse of every matrix with nonzero determinant undoes it, from both sides |
| MatrixInverses.RotationInverseIsTranspose | include/third-party/gmath/Matrix3x3.hpp:346-359 | for a rotation matrix it is the transpose |
| Conversions.RadicandAtLeastOne | include/third-party/gmath/Matrix3x3.hpp:381-421 | for every matrix the branch taken has a radicand of at least 1, so no bad root and no division by zero |
| Conversions.MatrixRoundTrip | include/third-party/gmath/Matrix3x3.hpp:381-421 | for every rotation matrix the result is a unit quaternion whose matrix is that matrix, in all four branches |
| Conversions.QuaternionRoundTrip | include/third-party/gmath/Matrix3x3.hpp:317-344 | a unit quaternion converted to a matrix and back is recovered up to its sign |
| Conversions.FromQuaternionRotates | include/third-party/gmath/Matrix3x3.hpp:317-344 | the matrix rotates as the quaternion does, up to the squared norm |
| Conversions.FromQuaternionIsRotation | include/third-party/gmath/Matrix3x3.hpp:317-344 | the matrix of every nonzero quaternion is a rotation matrix |
| Conversions.ToQuaternionRotates | include/third-party/gmath/Matrix3x3.hpp:381-421 | the quaternion of a rotation matrix rotates every vector as the matrix does |
| Rotations.UnitRotationKeeps | lib/math/rotation.cpp:23-25 | rotating stars by a unit quaternion keeps dot products, lengths and angles of separation |
| Rotations.Chance | lib/math/rotation.cpp:53-56 | a random attitude is a unit quaternion for all directions drawn outside that exception, and takes the first onto the second when the cosine is at least -0.99999 |
| Rotations.DrawsAttitudeIff | lib/math/rotation.cpp:53-56 | nothing else is excluded: nonzero directions are admitted if and only if the rotation between them is a unit quaternion |
| Rotations.TriadIsRotation | lib/math/rotation.cpp:62-75 | for pairs that are not collinear TRIAD is a unit quaternion |
| Rotations.TriadRotates | lib/math/rotation.cpp:62-75 | and takes the frame of the one pair to the frame of the other |
| Rotations.TriadRecoversRotation | lib/math/rotation.cpp:62-75 | from two vectors and their images under a rotation matrix TRIAD recovers the rotation on every vector |
| Rotations.TriadRecoversAttitude | lib/math/rotation.cpp:62-75 | the same for an attitude given by a unit quaternion |
| Rotations.TriadSendsPair | lib/math/rotation.cpp:62-75 | TRIAD sends the one pair to the other if and only if lengths and dot products agree |
| DegenerateTriads.TriadIsUnitIffNotCollinear | lib/math/rotation.cpp:62-75 | for all inputs, TRIAD returns a unit quaternion if and only if neither pair is collinear |
| Stars.WithinAngleOfEachOther | lib/math/star.cpp:50-60 | the flattened loop ends, stays in bounds and answers whether every two stars of the list are separated by less than the angle |
| Stars.WithinAngleSymmetric | lib/math/star.cpp:47-49 | the order of the two stars does not matter |
| Stars.SeparationInDegrees | lib/math/star.cpp:47-49 | stars are within an angle of each other if and only if the arc cosine of their directions, in degrees, is strictly below it |
| AngleLaws.TriangleInequality | include/third-party/gmath/Vector3.hpp:368-374 | for unit vectors the angle of separation is a distance: going through a third vector is no shorter |
| AngleLaws.WithinFieldOfView | lib/math/star.cpp:47-49 | unit vectors within half a field of view of its centre are within the field of view of each other |
| Trios.AreaIsHalfTheCrossProduct | lib/math/trio.cpp:32-37 | for all points Heron's radicand is not negative, four times the squared area is the squared cross product of two sides, and the area vanishes exactly for collinear points |
| Trios.MomentIsPolar | lib/math/trio.cpp:38-41 | for all points twelve times the moment is the area times the sum of the squared distances of the vertices from the centroid: the polar moment of the triangle |
| Trios.FeaturesIgnoreOrder | lib/math/trio.cpp:32-41 | area and moment are the same for all six orders of the vertices |
| Trios.FeaturesIgnoreRotation | lib/math/trio.cpp:32-41 | and under every unit quaternion |
| Trios.DistinctUnitsHaveFeatures | lib/math/trio.cpp:32-41 | both are positive for three distinct points of the unit sphere |
| Trios.UnitMomentBelowArea | lib/math/trio.cpp:38-41 | on the unit sphere the moment is at most a third of the area |
| SphericalMoments.LeafCount | lib/math/trio.cpp:105-120 | the recursion evaluates 4^depth leaves |
| SphericalMoments.MomentSumsLeaves | lib/math/trio.cpp:105-120 | and returns the sum of their moments |
| SphericalMoments.SphericalMomentIsSum | lib/math/trio.cpp:105-133 | the result is the sum over the leaves of area times squared angle between the centroid of the root and that of the leaf, or error -1 when that is negative |
| SphericalMoments.FourParts | lib/math/trio.cpp:78-95 | one cut gives the three corners up to the middles of their sides, and the triangle of the middles |
| SphericalMoments.LeafAreasSumToRoot | lib/math/trio.cpp:78-120 | with the planar midpoint and the planar area the areas of the leaves sum to that of the root, at every depth |
| SphericalMoments.CutSwap | lib/math/trio.cpp:78-95 | cutting a triangle with two vertices swapped gives the same four parts |
| SphericalMoments.SphericalMomentIgnoresOrder | lib/math/trio.cpp:105-133 | the spherical moment is the same for all six orders of the vertices, at every depth |
| Chomps.BoundQueryIsExact | lib/storage/chomp.cpp:204-218 | a range query returns exactly the rows with every feature in its inclusive band, each as often as the table holds it |
| Chomps.SortRows | lib/storage/nibble.cpp:114-139 | sorting a table rearranges its rows into the order of the features |
| Chomps.OrderedAscends | lib/storage/nibble.cpp:114-139 | the order is lexicographic and ascending: two rows that agree in the features before a column have that column in ascending order |
| Chomps.LookUpFinds | lib/storage/chomp.cpp:127-133 | a lookup succeeds exactly for the labels of the catalogue, with a star of that label |
| Chomps.LookUpUnique | lib/storage/chomp.cpp:127-133 | with distinct labels it returns that star |
| Chomps.Chomp.QueryHip | lib/storage/chomp.cpp:127-133 | the search returns the first star with the label, and throws exactly when there is none |
| Chomps.Chomp.CreateTable | lib/storage/nibble.cpp:78-93 | an existing table is left alone and reported, but becomes the current one |
| Chomps.Chomp.SortAndIndex | lib/storage/nibble.cpp:114-139 | replaces the table by a rearrangement that ascends in the first feature, then the second, and so on, and leaves the other tables alone |
| Chomps.Chomp.NearbyOf | lib/storage/chomp.cpp:136-155 | returns the stars within the field of view of the focus, in catalogue order |
| Chomps.NearbyExact | lib/storage/chomp.cpp:136-155 | these are the stars separated from the focus by less than the field of view, each as often as it is listed, in the order of the list |
| Enumeration.PairsExact | lib/identification/angle.cpp:167-168 | the loops visit every pair i < j exactly once |
| Enumeration.TriosExact | lib/identification/base-triangle.cpp:265-267 | the loops visit every trio i < j < k exactly once |
| Enumeration.PyramidTriosExact | lib/identification/pyramid.cpp:244-247 | the loops visit every trio of the first n - 1 stars exactly once, in bounds, and never star n - 1 |
| Enumeration.PaperTriosExact | doc/arxiv-paper.tex:933-936 | with the bounds of the paper they visit all n choose 3 trios exactly once |
| Enumeration.OuterLoopEndsIff | lib/identification/angle.cpp:145 | an outer loop whose unsigned bound is the size less one or two ends if and only if the list is that long and the counter can reach the bound |
| PairTables.GenerateTable | lib/identification/angle.cpp:15-48 | fills a new table with the pairs within the field of view, ascending by angle, and leaves an existing one alone |
| PairTables.PairTableIsComplete | lib/identification/angle.cpp:29-44 | every pair of bright stars has one row, its two labels and its angle in degrees, if that angle is below the field of view, and none otherwise |
| PairTables.PairTableMembers | lib/identification/angle.cpp:29-44 | the table holds no other rows |
| TrioTables.GenerateTriangleTable | lib/identification/base-triangle.cpp:17-68 | fills a new table with the fitting trios, ascending by area and then by moment |
| TrioTables.TrioTableIsComplete | lib/identification/base-triangle.cpp:35-65 | every trio has one row, its three labels, area and moment, if its stars are less than the field of view apart and area and moment are positive, and none otherwise |
| TrioTables.TrioTableMembers | lib/identification/base-triangle.cpp:35-65 | the table holds no other rows |
| TrioTables.TrioTableIsKnown | lib/identification/base-triangle.cpp:35-65 | every label of the table is that of a catalogue star, so that no lookup throws |
| PairTables.PairTableIsKnown | lib/identification/angle.cpp:29-44 | the same for the table of pairs |
| Identifications.FindPositiveOverlay | lib/identification/identification.cpp:33-52 | whatever the shuffle, returns one match for each catalogue star that falls near an image star: the first such star, with the label |
| Identifications.FirstNearIsFirst | lib/identification/identification.cpp:41-48 | the image star matched is the one with the least index among those closer than epsilon |
| Identifications.OverlayOfOne | lib/identification/identification.cpp:37-49 | a catalogue star gives one match, at the first image star closer than epsilon to its rotated place and with its label, or none |
| Identifications.OverlayAppends | lib/identification/identification.cpp:37-49 | the matches of several catalogue stars are those of each, one after the other |
| Identifications.OverlayIgnoresShuffle | lib/identification/identification.cpp:37-49 | shuffling rearranges the matches and keeps their number |
| Identifications.OverlayIsSound | lib/identification/identification.cpp:41-48 | every match is an image star near a rotated catalogue star whose label it carries |
| Identifications.OverlayOfAll | lib/identification/identification.cpp:33-52 | no attitude matches more than all catalogue stars; one that brings each near an image star matches all |
| Identifications.TrueOrderScoresTheAttitude | lib/identification/base-triangle.cpp:203-213 | when the body trio is the image of the catalogue trio, the right order scores what the true attitude scores |
| Identifications.OrdersAreThePermutations | lib/identification/base-triangle.cpp:192-200 | the six orders tried are the six permutations |
| Identifications.OrdersInTurn | lib/identification/base-triangle.cpp:192-200 | they are tried in ascending order, from (first, second, third) on, so that ties go to the earlier one |
| Identifications.MaxElement | lib/identification/base-triangle.cpp:222-227 | the first of the largest lists |
| Identifications.FirstBestIsUnique | lib/identification/base-triangle.cpp:222-227 | the first best order is unique |
| Identifications.FirstBestIff | lib/identification/base-triangle.cpp:203-227 | written out: the attitude from the first two stars of each trio matches at least as many catalogue stars in this order as in any of the six, and more than in any before it; the three image stars get the labels of this order |
| Identifications.GuardNeverFires | lib/identification/base-triangle.cpp:216-219 | the chained comparison is false for six lists of three |
| Angles.Angle.FindCandidatePair | lib/identification/angle.cpp:50-89 | returns the stars of the first row in the band, costs one access unless the pair is wider than the field of view, and never looks up a missing label |
| Angles.Angle.DirectMatchTest | lib/identification/angle.cpp:95-118 | throws unless both lists have two stars; answers if and only if the overlays of the two TRIAD attitudes differ in size, with the labels of the order with the larger one |
| Angles.LargerOverlayWins | lib/identification/angle.cpp:95-118 | the same of the function by which identification is specified |
| Angles.Angle.Reduce | lib/identification/angle.cpp:142-158 | returns the candidate of the first pair that has one; counts exactly one access for each pair tried that is within the field of view, and stops with the pair that takes them over nu_max |
| Angles.Angle.Identify | lib/identification/angle.cpp:163-196 | returns the answer of the first pair that has one; counts exactly one access per query and one per candidate, checks them before each pair, and gives up only after all pairs or once they exceed nu_max |
| Angles.TruePairScoresTheAttitude | lib/identification/angle.cpp:102-111 | in the right order a pair scores what the true attitude scores |
| Angles.PairAnswerIsTrue | lib/identification/angle.cpp:95-118 | if the attitude brings every nearby catalogue star near an image star, the image of a pair gets its true labels, in whichever order the table lists it, if and only if the exchanged order leaves a nearby star unmatched, and no labels otherwise |
| AngleTruth.CandidatePairIff | lib/identification/angle.cpp:50-89 | over a generated table there is a candidate if and only if theta is at most the field of view and some pair of bright stars agrees with it to within epsilon 1; it is such a pair, and of those the one with the smallest angle |
| AngleTruth.ImagePairAnswer | lib/identification/angle.cpp:163-196 | end to end: two stars of a rotated image whose angle agrees with one pair of the catalogue get their true labels if and only if the exchanged order leaves a nearby star unmatched, and no labels otherwise |
| CommonStars.CommonOfTwoIsExact | lib/identification/pyramid.cpp:49-82 | ascending, each label as often as the list that has it least often, no removed label |
| CommonStars.CommonOfThreeIsExact | lib/identification/pyramid.cpp:86-122 | the same for three lists |
| CommonStars.AscendingIsUnique | lib/identification/pyramid.cpp:63-66 | these counts determine the list |
| CommonStars.SetIntersectionCounts | lib/identification/pyramid.cpp:65-66 | the merge of sorted lists keeps the smaller multiplicity |
| CommonStars.FlattenPairs | lib/identification/pyramid.cpp:51-58 | the sorted list of the first two labels of every candidate |
| Pyramids.Pyramid.QueryForPairs | lib/identification/pyramid.cpp:22-45 | returns the label pairs in the band for one access, all of them known to the catalogue |
| Pyramids.Pyramid.Common | lib/identification/pyramid.cpp:49-82 | looks up exactly the common labels, and no lookup throws |
| Pyramids.Pyramid.CommonToThree | lib/identification/pyramid.cpp:86-122 | the same for three lists |
| Pyramids.Pyramid.FindCatalogStars | lib/identification/pyramid.cpp:154-170 | three accesses; answers exactly when all three intersections hold one star, with those stars in order |
| PyramidTruth.TrueLabelsSurvive | lib/identification/pyramid.cpp:161-169 | if every list holds its two true labels, single survivors are the true ones |
| PyramidTruth.PyramidIsSound | lib/identification/pyramid.cpp:154-170 | over a generated table, with true angles below its field of view and measured within epsilon 1: an answer is the three true stars in order |
| PyramidTruth.PyramidAnswersIff | lib/identification/pyramid.cpp:154-170 | three such stars get an answer if and only if each true label is the only common label of its two lists that is not yet removed, and occurs once in one of them |
| PyramidTruth.AlikeSidesAreNotAnswered | lib/identification/pyramid.cpp:154-170 | three stars with two sides that agree with both measured angles where they meet get no answer |
| PyramidTruth.IsoscelesTriosAreNotAnswered | lib/identification/pyramid.cpp:154-170 | in particular none of which two measured angles are equal |
| PyramidTruth.UnambiguousTriosAreAnswered | lib/identification/pyramid.cpp:154-170 | three stars each of whose angles agrees with no other pair of the catalogue are answered, with the true labels |
| PyramidTruth.RotatedIsMeasured | lib/benchmark/benchmark.cpp:47-59 | an image of catalogue stars under any attitude has exactly their angles, however small epsilon 1 is |
| PyramidTruth.IdentificationIsTrue | lib/identification/pyramid.cpp:237-271 | end to end: for an image whose angles are all within epsilon 1 of those of the catalogue stars shown, the answer labels three image stars with their true labels |
| PyramidTruth.AnsweredImagesExist | lib/identification/pyramid.cpp:237-271 | what these results assume can be met with an answer: four stars with six different angles, whose only trio is answered |
| Pyramids.Pyramid.Identify | lib/identification/pyramid.cpp:237-271 | returns the first trio in loop order with catalogue labels; three accesses per trio, at most nu_max + 3; fewer than four stars are refused |
| Pyramids.Pyramid.Reduce | lib/identification/pyramid.cpp:207-235 | the catalogue stars of the first such trio unless its three accesses exceed nu_max; exactly three per trio tried; an empty image throws |
| Pivots.SurvivedExact | lib/identification/base-triangle.cpp:150-171 | a trio survives the filters if and only if the first query returned it and it shares two stars with some trio of every later query that returned any |
| Pivots.SharesTwoIff | lib/identification/base-triangle.cpp:157-169 | the filter asks for a trio that has two different positions whose stars are both among the three of the other |
| Pivots.SurvivedCounts | lib/identification/base-triangle.cpp:150-171 | how often a trio survives: as often as the first query returned it if every later query that returned any has a trio with two of its stars, and not at all otherwise |
| Pivots.FirstQuerySurvives | lib/identification/base-triangle.cpp:150-171 | the first query filtered by itself loses nothing |
| Pivots.PivotOrderExact | lib/identification/base-triangle.cpp:134-141 | at most n - 3 further third stars, none used twice, all in range, the last star of the image last |
| Pivots.PivotOrderTriesAll | lib/identification/base-triangle.cpp:134-141 | the third star of the trio comes first; unless it is the last of the image, every star outside the trio follows, ascending |
| Pivots.PivotFindsSingleton | lib/identification/base-triangle.cpp:173-185 | a pivot succeeds exactly when some query leaves exactly one trio |
| Pivots.AccessesExact | lib/identification/base-triangle.cpp:145-186 | a pivot queries one third star after the other, each only while the accesses are within nu_max and more than one trio is left, and gives up exactly when neither a result nor the queue has stopped it |
| Pivots.TrioCandidateIff | lib/identification/base-triangle.cpp:70-83 | the rows queried are exactly those with an area within epsilon 1 and a moment within epsilon 2 |
| Pivots.MatchingTriosIff | lib/identification/base-triangle.cpp:97-130 | a catalogue trio matches if and only if the three stars are less than the field of view apart and a row with its labels has their features to within the epsilons |
| Pivots.TruthSurvives | lib/identification/base-triangle.cpp:145-186 | a true trio returned by the first query and supported by the later ones is never filtered out: what is found is that trio, and failing means more than one is left |
| Pivots.FoundIsSupported | lib/identification/base-triangle.cpp:145-186 | whatever is found came from the first query and shares two stars with some trio of every later query that returned any |
| BaseTriangles.NextInLine | lib/identification/base-triangle.cpp:178-184 | in the order of third stars the last star of the image comes last, and when another star's turn has come there is a next one |
| BaseTriangles.BaseTriangle.PTop | include/identification/base-triangle.h:28-33 | takes the front of a queue that is not empty |
| BaseTriangles.BaseTriangle.InitializePivot | lib/identification/base-triangle.cpp:134-141 | forgets past matches and queues the other stars of the image, ascending |
| BaseTriangles.BaseTriangle.BaseQueryForTrios | lib/identification/base-triangle.cpp:97-130 | the matching catalogue trios, with the error exactly when there are none; no access for stars out of view of each other |
| BaseTriangles.BaseTriangle.Pivot | lib/identification/base-triangle.cpp:145-186 | returns the outcome of the search, or gives up exactly when the accesses exceed nu_max before there is one; counts exactly one access per query of stars in view of each other; never takes from an empty queue; ends |
| BaseTriangles.BaseTriangle.DirectMatchTest | lib/identification/base-triangle.cpp:188-229 | always answers, with the labels of the first of the six orders with the largest overlay |
| BaseTriangles.BaseTriangle.EReduction | lib/identification/base-triangle.cpp:235-258 | the outcome of the first trio that has one; over budget exactly when nu exceeds nu_max, and then with that trio; nu counts the accesses of all pivots made; an abandoned pivot is never used |
| BaseTriangles.BaseTriangle.EIdentify | lib/identification/base-triangle.cpp:260-297 | the best labelling for the first trio whose pivot finds one; nu counts the accesses of all pivots made, and one more for the answer; gives up with the first trio that takes them over nu_max |
| TriangleTruth.TrueTrioIsCandidate | lib/identification/base-triangle.cpp:97-130 | over a generated table, querying three image stars whose area and moment are within the epsilons of the true ones returns the true trio |
| TriangleTruth.PivotFindsTheTruth | lib/identification/base-triangle.cpp:145-186 | end to end: a pivot over an image measured to within the epsilons finds the true trio or leaves more than one, never another and never none |
| TriangleTruth.IdentificationHasTrueLabels | lib/identification/base-triangle.cpp:260-297 | end to end: identification returns the three image stars with their three true labels, in some order |
| TriangleTruth.RotatedRunIsMeasured | lib/benchmark/benchmark.cpp:47-59 | an image of catalogue stars under any attitude is measured that well, however small the epsilons are |
| TriangleTruth.BestOrderIsTrueIff | lib/identification/base-triangle.cpp:203-227 | for any list of catalogue stars that the attitude brings near image stars, the first best order is the true one if and only if no order tried before it matches them all |
| TriangleTruth.AnswerIsTrueIff | lib/identification/base-triangle.cpp:188-229 | if the attitude brings every catalogue star within the field of view of the first star found near an image star, each star gets its own label if and only if no order tried before the true one matches them all as well |
| TriangleTruth.AnswerScoresAtLeastTheTruth | lib/identification/base-triangle.cpp:188-229 | and the order of the answer matches at least as many catalogue stars as the true attitude |
| TriangleTruth.TrueRunsExist | lib/identification/base-triangle.cpp:145-186 | what these results assume of a run can be met, with both epsilons zero |
| Composites.Composite.FindCatalogStars | lib/identification/composite-pyramid.cpp:73-119 | answers exactly when one row matches, with its stars in the best of six orders; one or two accesses |
| Composites.CompositeIsSound | lib/identification/composite-pyramid.cpp:73-78 | for an image measured to within the epsilons a single matching row is the row of the true stars |
| Composites.OrderIsTrueIff | lib/identification/composite-pyramid.cpp:91-119 | its stars come out in the true order, when the attitude matches all bright stars near the first of them, if and only if no order tried before matches them all as well |
| Composites.ReductionFindsRowIff | lib/identification/composite-pyramid.cpp:168-175 | a query with the area for the moment finds a row of that area if and only if its moment is within epsilon 2 of it |
| Composites.ReductionMissesTheTruth | lib/identification/composite-pyramid.cpp:168-175 | it misses the true row of a rotated image unless epsilon 2 is at least two thirds of the area |
| Composites.ReductionCanMiss | lib/identification/composite-pyramid.cpp:168-175 | it does so: a run in which the query for area and moment finds the row of the three stars shown and the reduction does not |
| Shuffling.ShuffledTogether | lib/benchmark/benchmark.cpp:30-35 | lists of one length shuffled by copies of one engine stay side by side |
| Shuffling.StaySideBySideIff | lib/benchmark/benchmark.cpp:30-35 | lists without repetitions stay side by side under every shuffle and engine if and only if they have the same length or one is empty |
| Benchmarks.AnswersAfterExtraLight | lib/benchmark/benchmark.cpp:75-87 | after extra light the answers are sure to stay beside their stars if and only if none was added, or there was no star |
| Benchmarks.AnswersAfterRemoval | lib/benchmark/benchmark.cpp:91-120 | after light was removed, if and only if nothing was removed, or everything |
| Benchmarks.Benchmark.constructor | lib/benchmark/benchmark.cpp:19-23 | a new image has its stars in focus; each is its inertial star rotated, without a label and with its magnitude, and the answer beside it has the label as well |
| Benchmarks.Benchmark.Shuffle | lib/benchmark/benchmark.cpp:30-35 | the pairs of image and inertial star are rearranged, and the answers with them while there are as many |
| Benchmarks.Benchmark.GenerateStars | lib/benchmark/benchmark.cpp:39-65 | every image star is the rotated, unlabelled inertial star beside it, in focus; the first attempt with more than four stars is used |
| Benchmarks.ShownExact | lib/benchmark/benchmark.cpp:47-59 | the stars shown are those of the catalogue separated from the focus by less than half the field of view and no fainter than the limit, each as often as it is listed, in catalogue order |
| Benchmarks.GeneratedImageShows | lib/benchmark/benchmark.cpp:47-59 | a generated image shows different catalogue stars under one attitude |
| Benchmarks.Benchmark.AddExtraLight | lib/benchmark/benchmark.cpp:75-87 | adds n false pairs, the k-th accepted draw with label -k - 1 beside the zero vector with label -k and the default magnitude, keeps the other pairs, and shuffles stars and answers alike |
| Benchmarks.AcceptedExact | lib/benchmark/benchmark.cpp:78-84 | the draws accepted are those separated from the focus by less than half the field of view, in the order they are drawn |
| Benchmarks.Benchmark.RemoveLight | lib/benchmark/benchmark.cpp:91-120 | keeps exactly the pairs whose image star no blob covers; the answers are only shuffled |
| Benchmarks.UncoveredExact | lib/benchmark/benchmark.cpp:105-118 | a pair is kept if and only if its image star is at least psi / 2 away from every blob |
| Benchmarks.Benchmark.CoverOnce | lib/benchmark/benchmark.cpp:105-118 | erasing from both lists while walking them filters the pairs |
| Benchmarks.Benchmark.ShiftLight | lib/benchmark/benchmark.cpp:124-140 | moves the first n image stars within focus, with their labels and magnitudes, and keeps the stars beside them |
| Benchmarks.Benchmark.Perform | include/experiment/experiment.h:83-87 | any sequence of disturbances keeps the lists side by side and the stars in focus, and does to the pairs what the disturbances do one after the other |
| Benchmarks.Origins | lib/benchmark/benchmark.cpp:75-140 | after any sequence of disturbances the pairs, up to places, are among those from before and the false ones, none more often, and all of them unless light was removed; without shifts the same holds of the pairs themselves |
| Benchmarks.EveryPairHasAnOrigin | lib/benchmark/benchmark.cpp:75-140 | so each pair has its label, magnitude and inertial star from one pair of the original image or one false pair |
| Experiments.GeneratedIsShown | lib/benchmark/benchmark.cpp:39-65 | all stars of a generated image are closer together than its field of view: it is an image as the end-to-end results assume |
| Experiments.PercentageCorrect | lib/experiment/experiment.cpp:12-29 | 0 for an error; otherwise the number of answers with a star of their label within the field of view, over the size of the result |
| Experiments.AgreeingExact | lib/experiment/experiment.cpp:19-25 | the answers counted are those separated by less than the field of view from a star of the result with their label |
| Experiments.ThreeLabelsCountThree | lib/experiment/experiment.cpp:19-25 | three stars that carry three right labels between them count as three correct stars, in whichever order they carry them |
| Experiments.PyramidAnswersTheImage | include/experiment/experiment.h:95-107 | what the pyramid method answers for a generated image are three of the answers themselves, and all of them count as correct |
| Experiments.TriangleScoresFull | include/experiment/experiment.h:95-107 | what the planar triangle method answers for a generated image counts as fully correct too |
| Experiments.PyramidTrial | include/experiment/experiment.h:95-107 | generating an image, identifying it by pyramids and comparing with the answers scores 1 whenever there is an answer and 0 otherwise |
| Sqlite.Statement.Bind | lib/third-party/sqlite-cpp/Statement.cpp:90-103 | accepts exactly the indices 1 to the number of parameters, and replaces the value of that parameter alone |
| Sqlite.Statement.Exec | lib/third-party/sqlite-cpp/Statement.cpp:270-300 | a done statement throws; a failed step can be repeated; a successful one inserts every tuple, with NULL for what is not bound, and is done |
| Sqlite.Transaction.Begin | lib/third-party/sqlite-cpp/Transaction.cpp:22-28 | opens a transaction or throws and changes nothing |
| Sqlite.Transaction.Commit | lib/third-party/sqlite-cpp/Transaction.cpp:45-57 | stores the pending tuples, or throws and changes nothing |
| Sqlite.Transaction.Destroy | lib/third-party/sqlite-cpp/Transaction.cpp:30-43 | drops the pending tuples of a transaction that was not committed |
| Lumberjacks.ExpectedSizeIsColumnsLessTwo | lib/experiment/lumberjack.cpp:27-30 | the number of results expected is the number of columns less two; a single column wraps around |
| Lumberjacks.Lumberjack.LogTrial | lib/experiment/lumberjack.cpp:39-47 | refuses exactly trials of the wrong size; flushes with the 50th trial; when it returns, stored tuples (identifier, timestamp, results) followed by the buffer are everything logged, in order; when it does not, the buffer is full or a COMMIT has lost it |
| Lumberjacks.Lumberjack.LogAll | lib/experiment/lumberjack.cpp:39-88 | over any run of trials, whatever BEGIN and step do, each is stored or buffered once and in order as identifier, timestamp and results; every call returns if an attempt succeeds before a COMMIT fails |
| Lumberjacks.Lumberjack.Placeholders | lib/experiment/lumberjack.cpp:53-58 | the statement has a group of one parameter per value for each trial, with commas between the groups, and so one parameter per value |
| Lumberjacks.Lumberjack.BindAll | lib/experiment/lumberjack.cpp:61-70 | binds the indices 1 to N (E + 2) once each, none out of range, to the values of the trials in order |
| Lumberjacks.SplitBoundValues | lib/experiment/lumberjack.cpp:61-70 | cutting the bound values into tuples gives back one tuple per trial |
| Lumberjacks.Lumberjack.TryOnce | lib/experiment/lumberjack.cpp:72-86 | one turn of the retry loop is one step of the model, for every way its calls may fail |
| Lumberjacks.Lumberjack.FlushBuffer | lib/experiment/lumberjack.cpp:49-88 | for every sequence of attempts, failing COMMITs included, table, buffer and return are those of the model of attempts |
| Lumberjacks.FlushReturnsIff | lib/experiment/lumberjack.cpp:72-86 | for every sequence of attempts the trials are stored exactly when the flush returns, and it returns if and only if one of them succeeds in all three calls before one fails in COMMIT alone |
| Lumberjacks.FlushIsDecidedOnce | lib/experiment/lumberjack.cpp:72-86 | the first attempt that gets past BEGIN and step decides: the trials are stored once, or its COMMIT fails, they are lost and no later attempt returns |

## Left out

- Floating-point rounding, overflow and NaN, and the trigonometric functions: sine and cosine do not occur, and the arc cosine has no more laws than stated.
- The compound assignment operators of `Vector3`, `Quaternion` and `Matrix3x3` and the swapping `Transpose`: they are modelled by the values they compute, since the program only applies them to copies.
- The overflow of the unsigned access counter `nu`: it is a natural number, so `nu_max + 3` is taken to fit.
- SQL text, file parsing and the loading of the catalogue: a table is a sequence of rows, and rows come back in table order.
- Transactions around table generation, console output and timing; the sweep over error levels of an experiment.
- Random draws: the stars drawn, the attitudes, the shaken vectors and the results of database calls are parameters; `slerp` and `shake` are not modelled, and of `chance` the rotation between the two directions drawn is.
- The random wait between attempts at a flush, and a retry loop that never ends: `FlushBuffer` is given its attempts and reports when none of them has returned.
- A failing ROLLBACK, whose exception the destructor of the transaction swallows.
- Angles.Angle.Identify: does not model an empty image, for which the unsigned loop bound wraps around and the loop does not end (`OuterLoopEndsIff`); nor images of more than 2^32 stars, which the counter cannot index.
- Angles.Angle.Reduce: does not model an empty image, for the same reason.
- PairTables.GenerateTable: does not model an empty list of bright stars, for the same reason.
- TrioTables.GenerateTriangleTable: does not model fewer than two bright stars, for the same reason.
- The spherical area and the slerp midpoint: the spherical moment is proved for any symmetric ones.
- The fourth-star verification of pyramid and composite: it draws at random, and the pyramid does not call it.
- `identify` of the composite method, which is the loop of the pyramid, and the loop of its `reduce`, which is the same again; what its query looks for is modelled.
- The `query` methods, the dot-angle method, the spherical triangle method and the planar wrapper classes: they repeat queries modelled here.
- The Benchmark constructor that is given its stars, whose inertial list stays empty.
- `OrthoNormalize`, Euler angles, `Lerp`, `Slerp` and the rest of gmath.
