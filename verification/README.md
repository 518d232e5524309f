# Verified models of frago

Dafny models of three parts of frago, with machine-checked proofs about them:

- the **whitebox scene studio** (a recipe): a software rasteriser, the exact geometry behind
  placing, measuring and framing, and the store that keeps scenes, plans and projects;
- the **agent driver**: an incremental transcript reader, the turn protocol of a tmux session and
  the pool that keeps sessions warm;
- two **chat recipes** that keep state between runs: a polling cursor with message merging, and a
  stable numbering of chats.

`dafny verify dfyconfig.toml` checks everything (Dafny 4.11).

## How the model reads

**Geometry** (`Vectors`, `Boxes`, `Rotations`, `Gaps`, `Cameras`, `Framing`, `Placement`, `SidewaysGaps`,
`Measuring`, `Headings`) is over exact reals. A square root is a parameter `sqrt` of which only
`SqrtLaw` is known, an angle is a cosine-sine pair, and the field of view enters as the tangent of its
half. Nothing else is asked of trigonometry.

**Meshes** (`Patches`, `Meshes`, `Staircases`, `Extrusions`, `UnitMeshes`). A mesh is vertices and
faces; its surface is the set of points on its faces, and each builder says which points those are.

**Rasteriser** (`Clipping`, `Rasterizer`, `Drawing`, `Picture`, `Perspective`). `Target` is the pair of
buffers that `raster` writes in place. It is proved against a brute-force renderer that asks every
clipped triangle about every pixel centre and keeps, per pixel, the earliest of the nearest fragments;
`Perspective` says what that is in space: the nearest point of any triangle on the ray through the
pixel centre, with its depth and its normal.

**Scene store** (`Documents`, `Scenes`, `References`, `Edits`, `EditEffects`, `StoredValues`,
`RaisingSteps`, `Foresight`, `Plans`, `PlanRuns`, `Instructions`, `PlanForesight`, `PlanFailures`).
Submitted data are JSON values, so missing, malformed and ill-typed fields take the branches they
take in the code; where Python would raise, the model says so (`Raised`, `Raises`, `Broke`,
`Escaped`). Geometry, `str` and `float` come in as functions (`Tools`), and the statements
hold for any of them; of `str` only that it is not empty (`ShowLaw`). A solver always answers once
the object it is given can be measured; when it cannot (`Measurable`), placing raises. `Studio` puts
the real placer and mover in for them.

**Projects** (`Slugs`, `Registries`, `RegistryRuns`). Every process edits the copy of the registry
it loaded when it started; each file write is one step, and runs interleave the steps of any number
of processes. A sync is two of them, a touch of the registry and a word to the page. Each reads
and writes in one step, as its code intends; `LateTouchKeepsIff` and `LateTellIff` say what happens
when something comes in between.

**Agent driver** (`Transcripts`, `TmuxSessions`, `SessionPool`, `PoolRuns`). Decoding and the agent
adapter are one function from a line to an optional record. A tmux session sees a world of numbered
frames (capture, liveness, probe reading, clock) and consumes one per poll; a text is its sequence
of lines, and a run is observed up to a horizon because a turn without a limit may wait for ever.
The pool runs over a set of live tmux names of which some may resist being killed.

**Chat recipes** (`ChatPolling`, `Broadcasts`, `Sorting`) and **image sizes** (`ImageSizes`).

`Options` and `Decimals` hold what several of these share.

## Where the code does not do what it says

The model follows the code. The lemmas named here show each case and say when the promise holds:

- `seedream_size` promises an unchanged aspect ratio; the 4:3 preset changes it
  (`FourThreeIsNotKept`, `ShapeKeptIff`).
- A plan is promised to be applied whole or not at all; a step that raises after another has
  written escapes the roll-back (`RaisingStepEscapes`, `TurnedPlaceEscapes`,
  `AllOrNothingIff`, `ReadablePlanIsAllOrNothing`).
- `validate_plan` accepts references that do not resolve when names are shared or objects deleted
  (`SharedNameAccepted`, `DeletedNameAccepted`, `AcceptedResolvesIff`).
- A rename advances the registry's revision but not the page's (`RenameLeavesPageBehind`,
  `FinishedInStepIff`, `InStepIff`).
- `place ... below` may be lifted to the ground and then not keep its distance, or even overlap
  (`BelowGoesInto`, `PlacedVerticallyKeepsDistance`).
- The gap of a sideways placement is promised to be the distance asked for; it is more when the
  heights do not meet, and across the world's axes unless the objects' reaches are in proportion to
  the direction
  (`AcrossAxesGapIsMore`, `GapIsDistanceIff`, `PlacedIsNotReported`).
- Left-right and front-back are not perpendicular for almost vertical cameras (`SkewedExists`,
  `SkewedNamesTwo`, `PerpendicularIff`).
- `seek_to_end` in the middle of a line mangles that line (`SeekSafeIff`).
- An unread baseline lets a turn return the previous answer (`UnreadBaselineRepeats`,
  `RepeatsIffUnread`).
- Two session ids may share a tmux name (`SharedNameKills`, `ReturnedIsAliveIff`); a raising hook or
  a failing kill strays a session (`RaisingHookStrays`, `StuckKillStrays`, `StraysIff`).
- Tasks beyond `max_results` are dropped for good (`AllHandedOutIff`, `CarriedAtMostOnce`).
- `ground_correct_plan` says that it tolerates one per cent of half the height; the code tolerates one
  per cent of the height (`GroundedIs`).
- Hand-edited permissions above the largest index admit chats that join later (`JoinSafeIff`).

## Model

| member | source | states |
|---|---|---|
| `Boxes.ObjectAabb` | community-recipes/recipes/whitebox_scene_studio/scene_ops.py:121-145 | the box of an object is the tightest box around the eight transformed corners of its unit body |
| `Boxes.TightUnique` | community-recipes/recipes/whitebox_scene_studio/scene_ops.py:121-145 | there is only one such box |
| `Boxes.WorldInsideAabb` | community-recipes/recipes/whitebox_scene_studio/scene_ops.py:121-145 | every point of the unit body, however scaled and rotated, lands inside the box |
| `Rotations.EulerTurns` | community-recipes/recipes/whitebox_scene_studio/scene_ops.py:98-107 | the matrix turns a vector about z, then y, then x, each turn right-handed and defined on its own |
| `Rotations.EulerKeepsDot` | community-recipes/recipes/whitebox_scene_studio/render.py:257-267 | on the circle it keeps dot products, so lengths and angles |
| `Rotations.ScaledTurnedMoved` | community-recipes/recipes/whitebox_scene_studio/scene_ops.py:121-145 | a point of the unit body is scaled along its own axes, turned about z, y and x, and then moved |
| `Rotations.AabbClosedForm` | community-recipes/recipes/whitebox_scene_studio/scene_ops.py:121-145 | the box in closed form: around the image of the unit body's centre, reaching as far on each axis as the absolute matrix sends the scaled half extents |
| `Rotations.QuarterTurnY` | community-recipes/recipes/whitebox_scene_studio/scene_ops.py:98-107 | a quarter turn about y exchanges the x and z extents of the box, and no others |
| `Gaps.AabbUnion` | community-recipes/recipes/whitebox_scene_studio/scene_ops.py:156-163 | the union box is the fold of the boxes |
| `Gaps.UnionLeast` | community-recipes/recipes/whitebox_scene_studio/scene_ops.py:156-163 | the union contains every box and is contained in every box that does |
| `Gaps.GapNegativeIffShared` | community-recipes/recipes/whitebox_scene_studio/scene_ops.py:484-490 | the surface gap is negative exactly when the boxes share an interior point |
| `Gaps.GapIsDistance` | community-recipes/recipes/whitebox_scene_studio/scene_ops.py:484-490 | otherwise it is the Euclidean distance: no pair of points is closer and some pair is exactly that far apart |
| `Gaps.SupportExact` | community-recipes/recipes/whitebox_scene_studio/scene_ops.py:173-181 | the support half extent is reached by some corner and exceeded by none |
| `Meshes.MeshBox` | community-recipes/recipes/whitebox_scene_studio/render.py:62-73 | the surface of a box mesh is the boundary of its box, no less and no more: every point of the six sides lies on a face, every face on a side |
| `Meshes.WithQuad` | community-recipes/recipes/whitebox_scene_studio/render.py:54-59 | a quad adds its four corners and exactly its two triangles |
| `Patches.QuadCovered` | community-recipes/recipes/whitebox_scene_studio/render.py:54-59 | which for a parallelogram cover every point of it |
| `Meshes.GridFaces` | community-recipes/recipes/whitebox_scene_studio/render.py:87-92 | every cell of a grid gets two faces naming its four corners, and nothing else is added |
| `Meshes.MeshSphere` | community-recipes/recipes/whitebox_scene_studio/render.py:76-93 | every vertex is on the sphere, where its two angles put it, and the cell between any four neighbouring vertices is covered by two faces |
| `Meshes.MeshCylinder` | community-recipes/recipes/whitebox_scene_studio/render.py:96-122 | the wall has two faces for every sector, both discs have one, facing outwards, and there are no others |
| `Meshes.WallIsCovered` | community-recipes/recipes/whitebox_scene_studio/render.py:96-122 | every point of every rectangle between neighbouring ring points lies on a face |
| `Meshes.AddCap` | community-recipes/recipes/whitebox_scene_studio/render.py:109-121 | a disc is a triangle from its hub for every sector, in the order that faces up or down |
| `Meshes.MeshCone` | community-recipes/recipes/whitebox_scene_studio/render.py:125-152 | a triangle up to the apex for every sector, a disc below, and nothing else |
| `Meshes.MeshCapsule` | community-recipes/recipes/whitebox_scene_studio/render.py:155-178 | every vertex is on one of the two end balls, where its row and column put it, and every cell is covered by two faces |
| `Extrusions.MeshExtrude` | community-recipes/recipes/whitebox_scene_studio/render.py:181-213 | both caps are fanned from the last profile point, every edge that is not too short has a wall of two faces, and there are no others |
| `Staircases.FanIsStairs` | community-recipes/recipes/whitebox_scene_studio/render.py:181-186 | the stair profile is star-shaped as promised: the fan from its last point covers exactly the solid below the steps, for any number of steps and any rising levels |
| `Extrusions.MeshStairs` | community-recipes/recipes/whitebox_scene_studio/render.py:216-225 | in their unit body, both ends of the stairs show the solid below the steps, and every point of every tread and riser, of the back and of the floor lies on a face, up to 1e12 steps |
| `UnitMeshes.UnitMesh` | community-recipes/recipes/whitebox_scene_studio/render.py:231-251 | for every shape the mesh drawn has that shape's surface, and its bounding box is exactly the unit body that is measured |
| `UnitMeshes.WorldTriangles` | community-recipes/recipes/whitebox_scene_studio/render.py:306-344 | the triangles are the faces of the unit mesh put into the world one for one, and every corner of every one lies in the box of its object |
| `UnitMeshes.WorldSurface` | community-recipes/recipes/whitebox_scene_studio/render.py:306-344 | every point of the unit mesh's surface, put into the world, lies on a triangle handed to the rasteriser |
| `Cameras.BasisOrthonormal` | community-recipes/recipes/whitebox_scene_studio/scene_ops.py:203-216 | for every camera, degenerate ones included, the three axes are orthonormal |
| `Headings.BasisIsUpright` | community-recipes/recipes/whitebox_scene_studio/scene_ops.py:203-216 | and right-handed, with up in the picture up in the world, or towards -z when looking straight up or down |
| `Cameras.LookAtAgrees` | community-recipes/recipes/whitebox_scene_studio/render.py:269-290 | the renderer and the measuring code use the same axes for every camera |
| `Cameras.ViewIsRelative` | community-recipes/recipes/whitebox_scene_studio/render.py:544-549 | the view of a point is its offset from the eye along those axes |
| `Cameras.ProjectionsAgree` | community-recipes/recipes/whitebox_scene_studio/render.py:412-423 | the renderer projects every point exactly where `project_point` says, and drops the same points |
| `Cameras.AabbScreenRect` | community-recipes/recipes/whitebox_scene_studio/scene_ops.py:250-270 | the screen rectangle is the tightest one around the corners that project, with their number; none when none projects |
| `Cameras.PointInScreenRect` | community-recipes/recipes/whitebox_scene_studio/scene_ops.py:239-270 | when all eight corners project, every point of the box projects inside the rectangle |
| `Cameras.DrawnVertexInScreenRect` | community-recipes/recipes/whitebox_scene_studio/scene_ops.py:121-145 | and the renderer draws every vertex of the object inside it, so a rectangle within the frame means nothing off-frame |
| `Framing.LargestNeed` | community-recipes/recipes/whitebox_scene_studio/scene_ops.py:302-369 | the loop over the corners computes the largest need, at least one metre |
| `Framing.DistanceLeast` | community-recipes/recipes/whitebox_scene_studio/scene_ops.py:302-369 | the solved distance is the least one that is enough for all eight corners |
| `Framing.PoseFrames` | community-recipes/recipes/whitebox_scene_studio/scene_ops.py:302-369 | from that distance, in any direction, every point of the box that is visible is within 1/(1+margin) on both axes |
| `Framing.SolveFrame` | community-recipes/recipes/whitebox_scene_studio/scene_ops.py:302-369 | through at most two direction corrections the pose frames the box unless the final ground clamp moves it; the camera is never lower than 0.3; the heading is kept |
| `Framing.FramedVertexFits` | community-recipes/recipes/whitebox_scene_studio/scene_ops.py:302-369 | from such a pose the renderer draws every vertex of every framed object within the margin |
| `Placement.AxesValid` | community-recipes/recipes/whitebox_scene_studio/scene_ops.py:219-236 | for every camera the ground axes are unit vectors in the ground plane |
| `Placement.AabbShift` | community-recipes/recipes/whitebox_scene_studio/scene_ops.py:121-145 | moving an object moves its box by the same amount |
| `Placement.PlacedBesideIsApart` | community-recipes/recipes/whitebox_scene_studio/scene_ops.py:375-428 | for any two objects and any camera a sideways placement overlaps by at most the rounding error, and is apart by the distance less twice that error |
| `SidewaysGaps.GapIsDistanceIff` | community-recipes/recipes/whitebox_scene_studio/scene_ops.py:375-428 | the gap a sideways placement leaves is the distance asked for if and only if the heights overlap or touch and the direction is along a world axis or the boxes' reaches are in proportion to it |
| `SidewaysGaps.PlacedBesideKeepsIff` | community-recipes/recipes/whitebox_scene_studio/scene_ops.py:375-428 | the same for any two objects and any camera |
| `SidewaysGaps.AlongAxisGap` | community-recipes/recipes/whitebox_scene_studio/scene_ops.py:375-428 | so along a world axis, with the heights overlapping, the gap is the distance |
| `SidewaysGaps.AcrossAxesGapIsMore` | community-recipes/recipes/whitebox_scene_studio/scene_ops.py:375-428 | two cubes and a direction for which it is more |
| `Placement.PlacedVerticallyKeepsDistance` | community-recipes/recipes/whitebox_scene_studio/scene_ops.py:375-428 | a vertical placement keeps the distance exactly, unless `below` was lifted to the ground; a lifted one overlaps its reference if and only if that is in the way, else its gap is the room there is, and the distance is kept exactly when the reference is deep enough or no distance was asked for |
| `Placement.BelowGoesInto` | community-recipes/recipes/whitebox_scene_studio/scene_ops.py:375-428 | a cube put below a cube that stands on the ground is put into it |
| `Measuring.PlacedIsNotReported` | community-recipes/recipes/whitebox_scene_studio/scene_ops.py:513-533 | a sideways placement, rounded to millimetres, is never reported as an intersection, and for distances of a millimetre or more the measured gap is at least the requested one less a millimetre |
| `Measuring.FindIntersections` | community-recipes/recipes/whitebox_scene_studio/scene_ops.py:513-533 | the issue loop lists exactly the clashing pairs, each once, in order |
| `Measuring.PlaceThenDescribe` | community-recipes/recipes/whitebox_scene_studio/scene_ops.py:434-481 | after placing and rounding, `describe_direction` names the requested side and calls the other axis aligned |
| `Measuring.PerpendicularIff` | community-recipes/recipes/whitebox_scene_studio/scene_ops.py:203-236 | left-right and front-back are perpendicular exactly for cameras that are not skewed |
| `Measuring.SkewedExists` | community-recipes/recipes/whitebox_scene_studio/scene_ops.py:203-236 | there is a skewed camera, almost vertical and leaning along x |
| `Measuring.SkewedNamesTwo` | community-recipes/recipes/whitebox_scene_studio/scene_ops.py:434-481 | for every camera that leans so, an object placed to the right is described as in front or behind too |
| `Measuring.PlacedIsNamed` | community-recipes/recipes/whitebox_scene_studio/scene_ops.py:434-481 | for every camera that is not skewed, placing and describing agree on the side |
| `Headings.RightIsRight` | community-recipes/recipes/whitebox_scene_studio/scene_ops.py:219-236 | for every camera, moving right moves to the right in the picture and moving left to the left |
| `Headings.BackIsAway` | community-recipes/recipes/whitebox_scene_studio/scene_ops.py:219-236 | and moving back moves away from the camera, unless it looks straight up or down |
| `Headings.BesideHeight` | community-recipes/recipes/whitebox_scene_studio/scene_ops.py:417-422 | an object placed sideways stands on the ground or, centred, has its middle as high as the reference's |
| `Headings.BesideIsLevel` | community-recipes/recipes/whitebox_scene_studio/scene_ops.py:434-481 | so a centred one is described as neither above nor below, and one on the ground by how far the middles differ |
| `Headings.PlacedVerticallyIsNamed` | community-recipes/recipes/whitebox_scene_studio/scene_ops.py:434-481 | an object placed above or below, and not lifted to the ground, is described as exactly that, once the middles differ by more than the tolerance |
| `Headings.DescribeReversed` | community-recipes/recipes/whitebox_scene_studio/scene_ops.py:434-481 | seen from the other object every word is the opposite one |
| `Clipping.ClipNear` | community-recipes/recipes/whitebox_scene_studio/render.py:377-409 | the loop with its two shortcuts computes the clipped fan |
| `Clipping.ClipSound` | community-recipes/recipes/whitebox_scene_studio/render.py:377-409 | every surviving corner is beyond the near plane and every point of a clipped triangle is a point of the original, with the same normal |
| `Clipping.ClipComplete` | community-recipes/recipes/whitebox_scene_studio/render.py:377-409 | every point of the triangle beyond the near plane lies in some clipped triangle |
| `Clipping.ClipShape` | community-recipes/recipes/whitebox_scene_studio/render.py:377-409 | which triangles come out, by which corners are beyond the plane |
| `Rasterizer.PaintIsEarliestNearest` | community-recipes/recipes/whitebox_scene_studio/render.py:412-470 | a pixel ends with the nearest fragment offered, and among equals with the earliest |
| `Rasterizer.DepthIgnoresOrder` | community-recipes/recipes/whitebox_scene_studio/render.py:412-470 | the depth does not depend on the order of the offers |
| `Rasterizer.DepthIgnoresColor` | community-recipes/recipes/whitebox_scene_studio/render.py:412-470 | nor on the colours |
| `Rasterizer.WeightsPlace` | community-recipes/recipes/whitebox_scene_studio/render.py:412-470 | the barycentric weights reproduce the pixel centre from the corners |
| `Rasterizer.CoveredInTile` | community-recipes/recipes/whitebox_scene_studio/render.py:412-470 | no covered pixel is outside the tile that is visited |
| `Rasterizer.CoveredInvzPositive` | community-recipes/recipes/whitebox_scene_studio/render.py:412-470 | a covered pixel gets a positive reciprocal depth |
| `Drawing.Target.constructor` | community-recipes/recipes/whitebox_scene_studio/render.py:368-374 | the buffers start empty |
| `Drawing.Target.DrawTile` | community-recipes/recipes/whitebox_scene_studio/render.py:412-470 | the tile update changes exactly the pixels of the tile that the offer is nearer at |
| `Drawing.Target.DrawTriangle` | community-recipes/recipes/whitebox_scene_studio/render.py:412-470 | visiting the tile only gives what asking every pixel would |
| `Drawing.Target.DrawClipped` | community-recipes/recipes/whitebox_scene_studio/render.py:412-470 | clipping and drawing the pieces gives the brute-force offers of the triangle |
| `Drawing.Target.Raster` | community-recipes/recipes/whitebox_scene_studio/render.py:412-470 | the tiled rasteriser leaves every pixel as the brute-force renderer paints it |
| `Drawing.Target.RasterSeg` | community-recipes/recipes/whitebox_scene_studio/render.py:575-583 | the colour-grouped seg loop equals one pass with a colour per triangle |
| `Drawing.GroupedOffers` | community-recipes/recipes/whitebox_scene_studio/render.py:575-583 | a run of one colour drawn together offers what its triangles would offer each |
| `Picture.PaintedPixel` | community-recipes/recipes/whitebox_scene_studio/render.py:412-470 | a painted pixel shows the nearest fragment of all triangles, and among equally near ones that of the earliest triangle |
| `Perspective.CoversIffSeen` | community-recipes/recipes/whitebox_scene_studio/render.py:412-470 | a pixel is covered if and only if the triangle is no sliver and a point of it projects to the pixel centre |
| `Perspective.CoveredIsSeen` | community-recipes/recipes/whitebox_scene_studio/render.py:412-470 | and then the depth offered is the reciprocal of that point's |
| `Perspective.ShadedNormal` | community-recipes/recipes/whitebox_scene_studio/render.py:459-467 | and the normal that is shaded is the one mixed with the point's own weights |
| `Perspective.PixelShowsSurface` | community-recipes/recipes/whitebox_scene_studio/render.py:412-470 | after drawing, a pixel is as it was or shows a point of a triangle that projects to its centre, with the reciprocal of its depth and the shade of its normal |
| `Perspective.NothingNearer` | community-recipes/recipes/whitebox_scene_studio/render.py:412-470 | and no triangle without slivers has a point beyond the near plane that projects there and is nearer |
| `Picture.DepthDependsOnTriangles` | community-recipes/recipes/whitebox_scene_studio/render.py:412-470 | permuting or repeating triangles and changing shaders leaves the depth buffer the same |
| `Picture.FlatColorSurvives` | community-recipes/recipes/whitebox_scene_studio/render.py:518-527 | a flat colour comes back from the buffer bit for bit |
| `Picture.SegPixel` | community-recipes/recipes/whitebox_scene_studio/render.py:575-583 | each seg pixel is the background or exactly the colour of the earliest nearest triangle |
| `Scenes.SceneFile.CleanAll` | community-recipes/recipes/whitebox_scene_studio/recipe.py:596-632 | the loop over submitted objects computes the kept objects and the complaints |
| `Scenes.SceneFile.Clean` | community-recipes/recipes/whitebox_scene_studio/recipe.py:596-632 | `clean_scene` with its complaints in order, and the inputs on which it raises |
| `Scenes.CleanObjectGood` | community-recipes/recipes/whitebox_scene_studio/recipe.py:558-593 | a kept object is legal, its id is new, and without a complaint it is field by field what was submitted |
| `Scenes.CleanObjectsGood` | community-recipes/recipes/whitebox_scene_studio/recipe.py:596-632 | kept objects are legal with distinct ids; without complaints they are all submitted ones in order |
| `Scenes.CleanSceneGood` | community-recipes/recipes/whitebox_scene_studio/recipe.py:596-632 | a scene without complaints is well formed, holds every submitted object in order and is one version on |
| `Scenes.CleanSceneAgain` | community-recipes/recipes/whitebox_scene_studio/recipe.py:596-632 | cleaning the document of a well-formed scene changes only the version |
| `Scenes.CleanWithObjects` | community-recipes/recipes/whitebox_scene_studio/recipe.py:1148-1159 | replacing the objects of a scene changes only objects and version |
| `Scenes.CleanWithCamera` | community-recipes/recipes/whitebox_scene_studio/recipe.py:1148-1159 | replacing the camera changes only camera and version |
| `Scenes.SceneFile.Persist` | community-recipes/recipes/whitebox_scene_studio/recipe.py:769-792 | a write stores every submitted object one version on, or changes nothing |
| `References.NextObjectId` | community-recipes/recipes/whitebox_scene_studio/recipe.py:1202-1213 | the id after the largest number is free at once, so the search tries a single candidate |
| `References.AboveIsFree` | community-recipes/recipes/whitebox_scene_studio/recipe.py:1202-1213 | every number above the largest is free |
| `References.ResolvedExists` | community-recipes/recipes/whitebox_scene_studio/recipe.py:1171-1199 | a resolved reference is the id of an object with that text as id or within its name |
| `References.ResolvesToOne` | community-recipes/recipes/whitebox_scene_studio/recipe.py:1171-1199 | with distinct ids and names, an id or name of some object resolves to exactly one object |
| `References.ResolvesIff` | community-recipes/recipes/whitebox_scene_studio/recipe.py:1171-1199 | for every list of objects and every reference: it resolves if and only if it is not empty and is an id, or the name of exactly one object, or no name and within exactly one |
| `Edits.SettleGood` | community-recipes/recipes/whitebox_scene_studio/recipe.py:1148-1159 | whatever an action submits, what is written is well formed and one version on |
| `Edits.PerformGood` | community-recipes/recipes/whitebox_scene_studio/recipe.py:2188-2214 | a step writes exactly if it succeeds and its action mutates |
| `RaisingSteps.BrokeIff` | community-recipes/recipes/whitebox_scene_studio/recipe.py:2188-2214 | exactly when a step raises: its arguments cannot be read, or a body cannot be measured with them, or a key cannot be looked up, and it gets as far as trying |
| `RaisingSteps.SubmitRaisesIff` | community-recipes/recipes/whitebox_scene_studio/recipe.py:1271-1705 | action by action, the arguments that make it raise, told without any geometry |
| `RaisingSteps.MoveRaisesIff` | community-recipes/recipes/whitebox_scene_studio/recipe.py:1444-1497 | a move raises if and only if the object is found and the direction is a list or an object |
| `RaisingSteps.MeasurableIff` | community-recipes/recipes/whitebox_scene_studio/scene_ops.py:121-145 | a built object can be measured if and only if the arguments give no rotation or one of three numbers, and no scale of one or two |
| `Foresight.CleanIff` | community-recipes/recipes/whitebox_scene_studio/recipe.py:558-593 | a submitted object is kept if and only if its id is new and not blank, its shape and semantic are known and its vectors are three numbers |
| `Foresight.StepForeseen` | community-recipes/recipes/whitebox_scene_studio/recipe.py:1271-1705 | for every action, scene and arguments: whether it succeeds and which ids and names it leaves follow from the arguments and the ids and names in the scene |
| `EditEffects.AddAdds` | community-recipes/recipes/whitebox_scene_studio/recipe.py:1271-1289 | adding appends one object with the next id and the given name; nothing else changes |
| `EditEffects.PlaceAdds` | community-recipes/recipes/whitebox_scene_studio/recipe.py:1371-1441 | so does placing |
| `EditEffects.UpdateUpdates` | community-recipes/recipes/whitebox_scene_studio/recipe.py:1292-1336 | updating changes only the object referred to, never its id, and its name only if one is given |
| `EditEffects.MoveMoves` | community-recipes/recipes/whitebox_scene_studio/recipe.py:1444-1497 | a move sets the position of exactly one object to what the mover says |
| `EditEffects.DeleteDeletes` | community-recipes/recipes/whitebox_scene_studio/recipe.py:1339-1355 | deleting succeeds once the reference resolves and leaves exactly the other objects in order |
| `EditEffects.ClearClears` | community-recipes/recipes/whitebox_scene_studio/recipe.py:1358-1368 | clearing leaves canvas and camera and no object |
| `EditEffects.CameraKeepsObjects` | community-recipes/recipes/whitebox_scene_studio/recipe.py:1578-1705 | setting or framing the camera keeps canvas and objects |
| `StoredValues.AddStores` | community-recipes/recipes/whitebox_scene_studio/recipe.py:1216-1289 | adding stores one object more with the id, kind, name, rotation and scale that the arguments say, at the position given or the origin |
| `StoredValues.PlaceStores` | community-recipes/recipes/whitebox_scene_studio/recipe.py:1371-1441 | placing stores one object more as the arguments say, where the placer puts it, which is shown the new object at the origin |
| `StoredValues.UpdateStores` | community-recipes/recipes/whitebox_scene_studio/recipe.py:1292-1336 | an update stores the fields given and keeps the others, sizes before factors, of exactly the object referred to |
| `StoredValues.FrameStores` | community-recipes/recipes/whitebox_scene_studio/recipe.py:1634-1705 | framing stores position and target of the solved pose and keeps the field of view |
| `StoredValues.PresetStores` | community-recipes/recipes/whitebox_scene_studio/recipe.py:1578-1631 | a preset stores position and target of its pose and the field of view given, or keeps it |
| `StoredValues.SetStores` | community-recipes/recipes/whitebox_scene_studio/recipe.py:1578-1631 | an explicit set stores exactly the position, target and field of view given and keeps the rest |
| `Studio.PlacedIsClear` | community-recipes/recipes/whitebox_scene_studio/recipe.py:1371-1441 | with the real solver, a sideways place action that succeeds stores an object that the health check never reports as intersecting, and that is apart by the distance less a millimetre |
| `Studio.MoveAndBack` | community-recipes/recipes/whitebox_scene_studio/recipe.py:1474-1480 | moving away and back returns to within a millimetre, and exactly from whole millimetres unless the way out ends halfway between two |
| `Studio.MovesReturn` | community-recipes/recipes/whitebox_scene_studio/recipe.py:1444-1500 | two move actions there and back leave every other object as it was and the one moved within a millimetre |
| `Plans.ValidatePlan` | community-recipes/recipes/whitebox_scene_studio/recipe.py:2084-2185 | the checking loop accepts exactly the plans whose every step is fine in the scope the earlier steps leave, raises exactly when some step's references cannot be looked up, and rejects all others |
| `PlanRuns.RunDescribed` | community-recipes/recipes/whitebox_scene_studio/recipe.py:2084-2185 | in plans without deletes, clears, explicit ids or label updates, every step runs on the scene its scope describes |
| `PlanRuns.ForeseenIds` | community-recipes/recipes/whitebox_scene_studio/recipe.py:2084-2185 | the id foreseen for an added object is the one execution assigns |
| `PlanRuns.AcceptedResolves` | community-recipes/recipes/whitebox_scene_studio/recipe.py:2084-2185 | with distinct names in play, every accepted reference resolves to exactly one object in the scene its step sees |
| `Instructions.GroundedStillOk` | community-recipes/recipes/whitebox_scene_studio/recipe.py:2246-2287 | grounding a plan changes nothing that was checked |
| `Instructions.GroundedIs` | community-recipes/recipes/whitebox_scene_studio/recipe.py:2246-2287 | grounding sets the height of a given position to zero exactly as described, if it is half the planned height up to a hundredth of it or a tenth of a millimetre, keeps everything else, and is idempotent |
| `Instructions.RunStep` | community-recipes/recipes/whitebox_scene_studio/recipe.py:2188-2214 | one step on the file does what the value model says |
| `Instructions.RunSteps` | community-recipes/recipes/whitebox_scene_studio/recipe.py:2423-2440 | the loop stops at the first step that does not succeed, leaving what was reached |
| `Instructions.Instruct` | community-recipes/recipes/whitebox_scene_studio/recipe.py:2423-2452 | the run applies all steps and raises the version by the mutating ones, or restores the scene, or escapes when a step raises |
| `Instructions.ExecuteCounts` | community-recipes/recipes/whitebox_scene_studio/recipe.py:2423-2452 | however far a run gets, the version counts the mutating steps done |
| `PlanForesight.PlanForeseen` | community-recipes/recipes/whitebox_scene_studio/recipe.py:2423-2452 | for every plan, from the ids and names in the scene and the plan alone: it goes through, or halts at the first step that does not pass, and raises there or fails; with the ids and names at that point |
| `PlanForesight.ExecutionForeseen` | community-recipes/recipes/whitebox_scene_studio/recipe.py:2423-2440 | along a run whose steps succeed, the ids and names in every scene are those computed from the first and the plan |
| `PlanFailures.AllOrNothingIff` | community-recipes/recipes/whitebox_scene_studio/recipe.py:2423-2452 | a run is all-or-nothing if and only if no step stumbles after an earlier one has written, which is told before the run from the plan and the ids and names in the scene |
| `PlanFailures.ReadablePlanIsAllOrNothing` | community-recipes/recipes/whitebox_scene_studio/recipe.py:2423-2452 | a plan whose arguments can be read and measured with is all-or-nothing on every scene |
| `PlanFailures.UnreadableStepEscapes` | community-recipes/recipes/whitebox_scene_studio/recipe.py:2423-2452 | unreadable arguments reached after a write leave the plan half applied |
| `PlanFailures.AcceptedUnreadableEscapes` | community-recipes/recipes/whitebox_scene_studio/recipe.py:2423-2452 | and so they do in every accepted plan without deletes, clears, explicit ids or label updates, with distinct names in play |
| `PlanFailures.RaisingStepEscapes` | community-recipes/recipes/whitebox_scene_studio/recipe.py:2423-2452 | an accepted plan that wipes any scene and is never rolled back |
| `PlanFailures.TurnedPlaceEscapes` | community-recipes/recipes/whitebox_scene_studio/recipe.py:2423-2452 | an accepted plan that sets the camera and then places an object with a rotation of one number is left half applied |
| `PlanFailures.SharedNameAccepted` | community-recipes/recipes/whitebox_scene_studio/recipe.py:2084-2185 | a name shared by two objects is accepted but does not resolve |
| `PlanFailures.DeletedNameAccepted` | community-recipes/recipes/whitebox_scene_studio/recipe.py:2084-2185 | the name of a deleted object is still accepted; the run then halts and is rolled back |
| `PlanFailures.AcceptedResolvesIff` | community-recipes/recipes/whitebox_scene_studio/recipe.py:2084-2185 | an accepted reference resolves in the scene its step runs on, in any plan, if and only if, among the ids and names computed from the first scene and the steps before, it is an id, or the name of exactly one object, or no name and within exactly one |
| `PlanFailures.UnresolvableRollsBack` | community-recipes/recipes/whitebox_scene_studio/recipe.py:2423-2452 | a plan whose steps pass up to one with a reference unresolvable among the computed names is rolled back there |
| `Instructions.EveryReachableSceneWellFormed` | community-recipes/recipes/whitebox_scene_studio/recipe.py:596-632 | every scene reachable by page writes, actions and plans is well formed |
| `Slugs.Slugify` | community-recipes/recipes/whitebox_scene_studio/recipe.py:286-301 | the search ends; the slug is legal, free, and the base or the least free numbered one |
| `Slugs.BaseKeepsLetters` | community-recipes/recipes/whitebox_scene_studio/recipe.py:286-301 | a base of fewer than forty characters keeps every letter and digit of the name in order, with no dash at the ends and no two in a row |
| `Registries.EnsuredSoundIff` | community-recipes/recipes/whitebox_scene_studio/recipe.py:341-407 | start-up yields a sound registry if and only if the file repeats no slug, and leaves a sound one alone |
| `Registries.Files.TouchRegistry` | community-recipes/recipes/whitebox_scene_studio/recipe.py:321-338 | a touch changes one object count of the registry as it is now |
| `Registries.Files.WriteState` | community-recipes/recipes/whitebox_scene_studio/recipe.py:467-493 | the page anchor takes the active project from the registry and leaves other projects' scenes alone |
| `Registries.Files.SyncProject` | community-recipes/recipes/whitebox_scene_studio/recipe.py:496-512 | a touch, and then the page's anchor from the registry as it is after whatever other processes do in between; the page then knows the revision |
| `Registries.Files.ProjectCreate` | community-recipes/recipes/whitebox_scene_studio/recipe.py:1856-1878 | a created project has a fresh legal slug and becomes active, and the page knows the new revision |
| `Registries.Files.ProjectSwitch` | community-recipes/recipes/whitebox_scene_studio/recipe.py:1881-1904 | switching, with its refusal and its no-op; after a switch the page knows the new revision |
| `Registries.Files.ProjectRename` | community-recipes/recipes/whitebox_scene_studio/recipe.py:1907-1930 | renaming changes one name and not the anchor; a page in step with a current copy falls behind exactly if the rename is written |
| `Registries.Files.ProjectDelete` | community-recipes/recipes/whitebox_scene_studio/recipe.py:1933-1977 | deleting refuses the last project and picks a new active one, and the page knows the new revision |
| `Registries.DeletedIs` | community-recipes/recipes/whitebox_scene_studio/recipe.py:1933-1977 | a deletion takes out exactly one entry, and if it was the active one the first of the others becomes active |
| `Registries.EntryChangedIs` | community-recipes/recipes/whitebox_scene_studio/recipe.py:1907-1930 | a rename changes one name and the revision, a touch one count and nothing else |
| `RegistryRuns.RunSound` | community-recipes/recipes/whitebox_scene_studio/recipe.py:315-512 | in every interleaving of processes the registry is non-empty, slugs are distinct and the active project exists |
| `RegistryRuns.SyncsInvisible` | community-recipes/recipes/whitebox_scene_studio/recipe.py:496-512 | dropping every touch and every word to the page from a run leaves the same projects, names, active project and revision |
| `RegistryRuns.TellTellsPage` | community-recipes/recipes/whitebox_scene_studio/recipe.py:467-493 | what a process tells the page at one moment, and what it leaves alone for inactive projects |
| `RegistryRuns.PanelFromActive` | community-recipes/recipes/whitebox_scene_studio/recipe.py:467-493 | over any run the page's scene view was set by a word about the project active at that moment |
| `RegistryRuns.LateTouchKeepsIff` | community-recipes/recipes/whitebox_scene_studio/recipe.py:321-338 | a touch whose read and write are apart keeps the projects if no edit was saved between them, and, with processes saving from up-to-date copies, only then |
| `RegistryRuns.LateTouchLosesProject` | community-recipes/recipes/whitebox_scene_studio/recipe.py:321-338 | a project created in that window is lost |
| `RegistryRuns.RenameLeavesPageBehind` | community-recipes/recipes/whitebox_scene_studio/recipe.py:1907-1930 | a rename leaves the page's revision one behind the registry's |
| `RegistryRuns.FallsBehindIff` | community-recipes/recipes/whitebox_scene_studio/recipe.py:467-512 | a page in step falls behind exactly at a step that saves an edit |
| `RegistryRuns.InStepIff` | community-recipes/recipes/whitebox_scene_studio/recipe.py:467-512 | over any run with up-to-date copies, the page is in step if and only if something was told to it since the last saved edit, and it is never ahead |
| `RegistryRuns.FinishedInStepIff` | community-recipes/recipes/whitebox_scene_studio/recipe.py:1856-1977 | a finished project action leaves the page in step if and only if it was not a rename that was written |
| `RegistryRuns.LateTellIff` | community-recipes/recipes/whitebox_scene_studio/recipe.py:467-493 | what a word to the page made from older files leaves there: in step if no edit was saved meanwhile and, with up-to-date copies, only then; and exactly when a scene told meanwhile is lost |
| `ImageSizes.SeedreamSize` | community-recipes/recipes/whitebox_scene_studio/recipe.py:989-1007 | both sides are multiples of 16, the area reaches the minimum, the height is the least multiple of 16 that fits the canvas, the width is less than 16 above the exact one, the repair loop does nothing, and the shape is kept exactly for the canvases told |
| `ImageSizes.FirstIsEnough` | community-recipes/recipes/whitebox_scene_studio/recipe.py:989-1007 | the first height is enough in exact arithmetic |
| `ImageSizes.ShapeKeptIff` | community-recipes/recipes/whitebox_scene_studio/recipe.py:989-1007 | the shape is kept if and only if the least height that fits, which the canvas alone decides, times the canvas width is a multiple of sixteen canvas heights |
| `ImageSizes.FirstIsLeast` | community-recipes/recipes/whitebox_scene_studio/recipe.py:989-1007 | the height taken from the square root is the least multiple of 16 with enough pixels, in integers |
| `ImageSizes.FourThreeIsNotKept` | community-recipes/recipes/whitebox_scene_studio/recipe.py:989-1007 | the 4:3 preset becomes 2224 x 1664, which is not 4:3 |
| `ImageSizes.OthersAreKept` | community-recipes/recipes/whitebox_scene_studio/recipe.py:989-1007 | the other three presets keep their shape |
| `Transcripts.JsonlTranscriptSource.SeekToEnd` | src/frago/agent_driver/transcript_source.py:125-136 | seeking resolves the path and puts the offset at the end of the file |
| `Transcripts.JsonlTranscriptSource.PollOnce` | src/frago/agent_driver/transcript_source.py:139-186 | a poll returns the records of the complete lines after the offset and moves the offset past them |
| `Transcripts.NewPathFromStart` | src/frago/agent_driver/transcript_source.py:84-94 | a new path is read from its beginning, wherever the old one was left, and anything else leaves path and offset alone |
| `Transcripts.LinesAtNewline` | src/frago/agent_driver/transcript_source.py:139-186 | a newline separates the lines before it from the lines after it |
| `Transcripts.RecordsAtBoundary` | src/frago/agent_driver/transcript_source.py:139-186 | cutting a file at a line boundary cuts its records there |
| `Transcripts.PolledIsParsedOnce` | src/frago/agent_driver/transcript_source.py:139-186 | for any interleaving of appends and polls everything polled is the parse, done once, of the bytes up to the cursor |
| `Transcripts.PolledIndependentOfCuts` | src/frago/agent_driver/transcript_source.py:139-186 | after a poll all complete lines written have been delivered, whatever the cuts |
| `Transcripts.SeekAtBoundary` | src/frago/agent_driver/transcript_source.py:125-186 | after seeking at a line boundary the same holds for what is appended afterwards |
| `Transcripts.SeekSafeIff` | src/frago/agent_driver/transcript_source.py:125-136 | after seeking inside a line, history and whatever is polled make up the complete lines, for every parser, if and only if it was the start of the line or the line is blank |
| `TmuxSessions.TmuxAgentSession.CaptureResilient` | src/frago/agent_driver/tmux_session.py:192-208 | a failed capture counts as death only after a failed liveness check; else the last pane stands in |
| `TmuxSessions.TmuxAgentSession.WaitForAny` | src/frago/agent_driver/tmux_session.py:440-459 | the wait ends at the first frame that is not quiet, ok before needs-input |
| `TmuxSessions.EndUnique` | src/frago/agent_driver/tmux_session.py:440-459 | how and where a wait ends is determined by the frames |
| `TmuxSessions.WaitBounded` | src/frago/agent_driver/tmux_session.py:440-459 | with a positive timeout and an advancing clock the number of polls is bounded |
| `TmuxSessions.NotBeforeTimeout` | src/frago/agent_driver/tmux_session.py:440-459 | a wait never expires before its timeout has passed, and never without one |
| `TmuxSessions.ComputeDelta` | src/frago/agent_driver/tmux_session.py:108-127 | the delta is what follows the last occurrence of the lowest usable line, or everything |
| `TmuxSessions.GrownScreen` | src/frago/agent_driver/tmux_session.py:108-127 | on a screen that only grew, with its prompt redrawn, the delta is exactly what was added |
| `TmuxSessions.SendText` | src/frago/agent_driver/tmux_session.py:219-232 | the chunks make up the text, all full but the last, and an empty text is sent once |
| `TmuxSessions.TmuxAgentSession.Open` | src/frago/agent_driver/tmux_session.py:235-307 | a session becomes ready only at the first frame with the ready signal; otherwise it is killed and marked dead |
| `TmuxSessions.TailShowsContent` | src/frago/agent_driver/tmux_session.py:94-105 | the tail of a screen ends with its last line of content |
| `TmuxSessions.TailIsLast` | src/frago/agent_driver/tmux_session.py:94-105 | the tail is the last twenty lines with content, or all of them |
| `TmuxSessions.TmuxAgentSession.SendTurn` | src/frago/agent_driver/tmux_session.py:353-433 | what a turn reports in terms of the frames it saw, including every way of losing the session |
| `TmuxSessions.TmuxAgentSession.Send` | src/frago/agent_driver/tmux_session.py:321-351 | the protocol history stays valid over any number of turns |
| `TmuxSessions.StatusMeans` | src/frago/agent_driver/tmux_session.py:353-433 | what each status of a turn says about the polled frames |
| `TmuxSessions.WhoDecides` | src/frago/agent_driver/tmux_session.py:353-433 | a probe that answers decides alone and refuses the answer from before the prompt; otherwise the pane decides |
| `TmuxSessions.NoVerdictTwice` | src/frago/agent_driver/tmux_session.py:353-433 | no finished answer is returned for two turns when the baseline was read and markers are not reused |
| `TmuxSessions.UnreadBaselineRepeats` | src/frago/agent_driver/tmux_session.py:353-433 | with the baseline unread the old verdict is returned again |
| `TmuxSessions.RepeatsIffUnread` | src/frago/agent_driver/tmux_session.py:353-433 | when the first poll still reads a finished verdict an earlier turn returned, the turn answers with it again if and only if its baseline went unread |
| `SessionPool.NamesCollideIff` | src/frago/agent_driver/tmux_session.py:74-82 | when two ids get the same tmux name |
| `SessionPool.WarmSessionPool.constructor` | src/frago/agent_driver/pool.py:28-44 | the pool starts empty |
| `SessionPool.WarmSessionPool.Acquire` | src/frago/agent_driver/pool.py:59-99 | acquiring reuses, rebuilds or opens, and puts the id last |
| `SessionPool.WarmSessionPool.EvictIfNeeded` | src/frago/agent_driver/pool.py:165-170 | the loop drops from the head down to the size and kills what it drops |
| `SessionPool.WarmSessionPool.Evict` | src/frago/agent_driver/pool.py:131-137 | evicting one session |
| `SessionPool.WarmSessionPool.EvictIdle` | src/frago/agent_driver/pool.py:139-156 | exactly the idle sessions are evicted, in order |
| `SessionPool.WarmSessionPool.Shutdown` | src/frago/agent_driver/pool.py:158-162 | every session is closed |
| `PoolRuns.StaysSound` | src/frago/agent_driver/pool.py:59-170 | no run exceeds the size or holds an id twice, whatever fails or dies |
| `PoolRuns.ReturnedPutsLast` | src/frago/agent_driver/pool.py:59-99 | a returning acquisition puts its id last and drops only from the head |
| `PoolRuns.HoldsMostRecent` | src/frago/agent_driver/pool.py:59-170 | the pool holds exactly the most recently acquired distinct ids in order of last use, deaths included |
| `PoolRuns.SmallerIsSuffix` | src/frago/agent_driver/pool.py:59-170 | a smaller pool serving the same requests is always a suffix of a larger one |
| `PoolRuns.LiveAreEntries` | src/frago/agent_driver/pool.py:59-170 | with names apart, working kills and hooks that do not raise, live sessions it opened are its entries |
| `PoolRuns.ReturnedIsAliveIff` | src/frago/agent_driver/pool.py:59-99 | a returned session is alive unless a dropped entry shares its name and could be killed |
| `PoolRuns.SharedNameKills` | src/frago/agent_driver/pool.py:59-99 | two ids with one name in a pool of one: acquiring the second kills it |
| `PoolRuns.ColonAndDotShare` | src/frago/agent_driver/tmux_session.py:74-82 | two ids that differ in a colon and a dot get the same tmux name |
| `PoolRuns.RaisingHookStrays` | src/frago/agent_driver/pool.py:59-99 | a raising hook leaves a live session outside the pool |
| `PoolRuns.RaisingHookStraysIff` | src/frago/agent_driver/pool.py:59-99 | with kills that work, a fresh acquisition leaves no live session outside the pool if and only if its hook does not raise |
| `PoolRuns.StuckKillStrays` | src/frago/agent_driver/pool.py:59-99 | evicting an entry that cannot be killed leaves a live session outside the pool too |
| `PoolRuns.StraysIff` | src/frago/agent_driver/pool.py:59-99 | exactly when an acquisition strays a session, whatever resists killing, does not open or raises |
| `PoolRuns.RemovedStraysIff` | src/frago/agent_driver/pool.py:131-163 | removing entries strays exactly those that are alive and cannot be killed |
| `PoolRuns.TidyRun` | src/frago/agent_driver/pool.py:59-163 | a run in which every operation is tidy strays nothing |
| `ChatPolling.MergeCommands` | community-recipes/recipes/feishu_check_messages/recipe.py:556-570 | the grouping loop yields an order-preserving partition into maximal runs |
| `ChatPolling.GroupingUnique` | community-recipes/recipes/feishu_check_messages/recipe.py:556-570 | that partition is unique |
| `ChatPolling.RunSpan` | community-recipes/recipes/feishu_check_messages/recipe.py:556-570 | a task has one sender and spans at most a minute for every command after the first |
| `ChatPolling.CommandsIn` | community-recipes/recipes/feishu_check_messages/recipe.py:529-556 | the items merged are exactly the new commands, at their places |
| `ChatPolling.CommandsOrdered` | community-recipes/recipes/feishu_check_messages/recipe.py:529-556 | in the order of their places, none twice |
| `ChatPolling.TasksCarry` | community-recipes/recipes/feishu_check_messages/recipe.py:572-600 | its tasks carry, in order, exactly the messages merged |
| `ChatPolling.Poller.PollChat` | community-recipes/recipes/feishu_check_messages/recipe.py:556-653 | one chat's tasks and the highest time seen |
| `ChatPolling.Poller.Poll` | community-recipes/recipes/feishu_check_messages/recipe.py:466-663 | one poll: the maximal runs of new commands become tasks, of which those of highest rank are handed out in order of rank, as many as asked for; none left out ranks higher; the cursor moves past everything new |
| `ChatPolling.ContextIsLatest` | community-recipes/recipes/feishu_check_messages/recipe.py:573-580 | the context of a task is the latest messages before its first command, as many as the limit allows |
| `Sorting.SortStable` | community-recipes/recipes/feishu_check_messages/recipe.py:656-656 | the sort by id keeps the order of equal ids |
| `ChatPolling.HighestCovers` | community-recipes/recipes/feishu_check_messages/recipe.py:643-653 | the cursor covers every new message and comes from one |
| `ChatPolling.NewIff` | community-recipes/recipes/feishu_check_messages/recipe.py:529-536 | a message is new exactly when the later of its creation and its edit is past the cursor |
| `ChatPolling.CursorNeverDecreases` | community-recipes/recipes/feishu_check_messages/recipe.py:643-663 | over any sequence of polls the cursor never decreases |
| `ChatPolling.NewOnlyOnce` | community-recipes/recipes/feishu_check_messages/recipe.py:529-536 | a message new in one poll is never new again at the same update time |
| `ChatPolling.CarriedAtMostOnce` | community-recipes/recipes/feishu_check_messages/recipe.py:556-663 | over any sequence of polls a message, at one update time, is in the tasks of at most one poll |
| `ChatPolling.PlaceInOneTask` | community-recipes/recipes/feishu_check_messages/recipe.py:556-653 | in one poll of a chat the place of every new command is in exactly one task, and no other place is in any |
| `ChatPolling.PollCarriesIff` | community-recipes/recipes/feishu_check_messages/recipe.py:556-653 | the tasks of a poll carry exactly the new commands of its chats |
| `ChatPolling.AllHandedOutIff` | community-recipes/recipes/feishu_check_messages/recipe.py:655-658 | everything found is handed out if and only if nothing was found, no limit is set, or it is not exceeded |
| `Broadcasts.NextIndex` | community-recipes/recipes/feishu_broadcast_message/recipe.py:105-114 | the next index is one above the largest in use, or 1 |
| `Broadcasts.Sync` | community-recipes/recipes/feishu_broadcast_message/recipe.py:97-144 | the loop assigns known chats their indexes and new ones the next, and carries permissions over |
| `Broadcasts.AssignedApart` | community-recipes/recipes/feishu_broadcast_message/recipe.py:111-133 | no index is handed out twice |
| `Broadcasts.SyncedValid` | community-recipes/recipes/feishu_broadcast_message/recipe.py:97-144 | ids and indexes stay distinct and permissions stay among the indexes |
| `Broadcasts.SyncFollows` | community-recipes/recipes/feishu_broadcast_message/recipe.py:97-144 | chats present before keep index and permission; chats that joined have a fresh index and no permission |
| `Broadcasts.RunKeeps` | community-recipes/recipes/feishu_broadcast_message/recipe.py:97-144 | over any sequence of syncs both hold at every step |
| `Broadcasts.JoinSafeIff` | community-recipes/recipes/feishu_broadcast_message/recipe.py:97-144 | with permissions edited by hand, no chat can join permitted if and only if every permitted number is below the next index |

## Left out

- Numbers that no float holds, on which `float`, `round` or a cosine raises in the middle of an
  action, and numerals longer than `int` converts.
- Floating point, PNG encoding, resizing and array data types: arithmetic is exact, and rounding to
  millimetres or to four decimals is modelled where the code rounds on purpose.
- Mesh normals, the clay shader, the grid, previews and snapshots; a shader is any function of the
  normal.
- The floating, sunken and out-of-frame parts of `find_issues`, and the texts of all messages.
- Model calls, prompts, generation, critique, publishing, history and drafts.
- File system failures, JSON text, timestamps and the trash directory: a file write is one step.
- Concrete drivers and loading them, regular expressions, transcript adapters and environment injection; start-up
  exception handlers.
- Fetching, sending, reacting and attachments of the chat recipes.
- Text beyond ASCII for digits, spaces and slugs; lower-casing of a project name is done by the
  caller, and `str.isalnum` is a parameter of `TmuxName`.
- Line ends other than those that separate the lines of a pane.
- SolveFrame: framing is claimed when the final ground clamp leaves the height alone, because a
  clamped camera no longer stands where the distance was solved for.
- AcceptedResolves: is about the references `validate_plan` looks at; when `targets` is a single
  text it looks at its characters, while `camera_frame` takes the whole text.
- GroundedStillOk: the planned height is a parameter; how it is computed from sizes is not modelled.
- RegistryRuns.InStepIff: assumes that edits are saved from up-to-date copies, because a process that
  saves an old copy may set the revision back to the page's.
- Registries.Files.ProjectCreate: does not model a directory that is already there under the slug.
- Poll: the order of task ids is a parameter `rank`.
- NoVerdictTwice: assumes that the probe answered the reading before the later turn, without which
  it is false.
- LiveAreEntries: assumes that names are kept apart, kills work and hooks do not raise, without
  which it is false; `StraysIff` and `TidyRun` do without the last two.
