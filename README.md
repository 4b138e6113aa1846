# Flappy Bird AI: perceptron, evolution lifecycle and sprite slicing

This project models, in Dafny, the three pieces of logic in the Flappy Bird
neuroevolution repository that have algorithmic content:

- `neural_net.dfy` (module `NeuralNet`): the bird's brain, a single-layer
  perceptron with four weights. `Predict` rejects inputs that are not four
  long and otherwise squashes the ordered dot product of inputs and weights
  with the logistic function. `Mutate` walks the weights in place, perturbing
  each with probability 0.1 by a draw from [-0.1, 0.1] and clamping it into
  [-1, 1]. Weights live in an array owned by a `NeuralNetwork` object; the
  class invariant is "exactly four weights, each in [-1, 1]".
- `genetic_alg.dfy` (module `GeneticAlg`): the `EvolutionManager`, of which
  only the lifecycle exists. It keeps the population size it was created with
  and a generation counter that starts at 1 and goes up by one per
  `CreateNextGeneration`, which returns an empty population. Speciation and
  fitness calculation do nothing.
- `image_cropper.dfy` (module `ImageCropper`): the integer logic of the ghost
  skin generator. The sheet is a 3 by 4 grid of cells of `W div 3` by
  `H div 4` pixels; the three frames are the cells of row 1, saved as
  `assets/ghostbird-{downflap,midflap,upflap}.png`. Each frame's background is
  keyed out: a pixel whose red, green and blue each differ by less than 30
  from the top-left pixel becomes `(0,0,0,0)`, every other pixel is kept.

Modelling choices:

- Floating point is modelled by exact reals; the integer pixel and box
  arithmetic is on unbounded integers, which is what Python does.
- `math.exp` is a parameter `exp: real -> ExpOutcome`: for each argument it
  gives either a non-negative value or an overflow. Non-negative rather than
  positive, because a float exponential underflows to 0.0 for large negative
  arguments, where `1 / (1 + 0.0)` is exactly 1.
- The random draws are parameters: four draws from [-1, 1] for the
  constructor, and one roll and one delta per weight for `Mutate` (the delta
  is only used when the roll is below 0.1).
- The imaging library's crop-and-read-pixels step is a parameter
  `crop: Box -> seq<Pixel>`. Reading the top-left pixel of an empty sprite
  raises an error that the catch-all handler turns into the end of the run;
  the model returns `None` from background removal and stops the frame loop
  there, with the frames before it saved.

## Model

| member | source | states |
|---|---|---|
| `NeuralNet.NeuralNetwork.constructor` | neural_net.py:9-12 | a new network owns a fresh array of exactly 4 weights, the four draws from [-1, 1], so the class invariant holds |
| `NeuralNet.NeuralNetwork.Sigmoid` | neural_net.py:14-23 | the logistic value is always in [0, 1]; when the exponential is finite it is in (0, 1], and with exact arithmetic equal to 1 exactly when the exponential is 0; on overflow it is exactly 0 for negative x and exactly 1 otherwise |
| `NeuralNet.NeuralNetwork.SigmoidSymmetric` | neural_net.py:17-20 | where e^x and e^-x are finite and reciprocal, s(x) + s(-x) == 1 |
| `NeuralNet.NeuralNetwork.Predict` | neural_net.py:25-40 | an input of length other than 4 gives the `InvalidInput` error and nothing else does; a successful result lies in [0, 1]; as a function reading only the weights it is deterministic and writes no state |
| `NeuralNet.NeuralNetwork.PredictIsDotProduct` | neural_net.py:32-37 | with four inputs and four weights the decision is the logistic value of i0*w0 + i1*w1 + i2*w2 + i3*w3 |
| `NeuralNet.WeightedSum` | neural_net.py:34 | the left-to-right sum of the pairwise products of inputs and weights, starting from 0, cut to the shorter vector as `zip` does |
| `NeuralNet.WeightedSumOfFour` | neural_net.py:34 | the zip-and-sum over two four-element vectors, accumulated left to right, equals the fixed-order dot product |
| `NeuralNet.Clamp` | neural_net.py:54 | `max(-1, min(1, w))` always lies in [-1, 1], leaves values in range alone and sends values above 1 to 1 and below -1 to -1 |
| `NeuralNet.ClampNonExpansive` | neural_net.py:54 | clamping never moves two values further apart |
| `NeuralNet.MutateWeight` | neural_net.py:49-54 | a weight whose roll is not below 0.1 is unchanged; a mutated weight is in [-1, 1] |
| `NeuralNet.MutationStepBounded` | neural_net.py:49-54 | a weight in range perturbed by a delta in [-0.1, 0.1] moves by at most 0.1 |
| `NeuralNet.Mutated` | neural_net.py:48-54 | a mutation pass keeps the number of weights; unselected weights are unchanged and selected ones become the clamped sum of weight and delta |
| `NeuralNet.MutatedInRange` | neural_net.py:48-54 | if all weights were in [-1, 1] before a mutation pass, they all are after it |
| `NeuralNet.MutatedStepBounded` | neural_net.py:48-54 | each weight of a mutation pass moves by at most 0.1 when its delta is drawn from [-0.1, 0.1] |
| `NeuralNet.NeuralNetwork.Mutate` | neural_net.py:42-54 | the in-place loop leaves the array equal to the mutation pass of its old contents and keeps the class invariant (four weights, all in [-1, 1]) |
| `GeneticAlg.EvolutionManager.constructor` | genetic_alg.py:9-11 | a new manager holds the given population size and generation count 1 |
| `GeneticAlg.EvolutionManager.Speciation` | genetic_alg.py:14-22 | grouping into species changes no manager state |
| `GeneticAlg.EvolutionManager.CalculateFitness` | genetic_alg.py:24-29 | fitness calculation changes no manager state |
| `GeneticAlg.EvolutionManager.CreateNextGeneration` | genetic_alg.py:31-50 | returns an empty population whatever the dead birds are; the generation count goes up by exactly one and the population size (a constant field) stays |
| `GeneticAlg.Started` | genetic_alg.py:10-11 | the state of a new manager: the given population size and generation count 1 |
| `GeneticAlg.NextGeneration` | genetic_alg.py:49 | one generation transition: the count goes up by one, the population size stays |
| `GeneticAlg.AfterGenerationsCounts` | genetic_alg.py:49 | n generation transitions add exactly n to the count and keep the population size |
| `GeneticAlg.FreshManagerGenerations` | genetic_alg.py:9-50 | after n transitions a fresh manager is in generation 1 + n with its original population size |
| `ImageCropper.CellWidth` | image_cropper.py:24-27 | the cell width is W divided by 3 rounded down: 3*sw <= W < 3*sw + 3 |
| `ImageCropper.CellHeight` | image_cropper.py:25-28 | the cell height is H divided by 4 rounded down: 4*sh <= H < 4*sh + 4 |
| `ImageCropper.CellBox` | image_cropper.py:60-63 | a cell's box is sw wide and sh high |
| `ImageCropper.CellInsideSheet` | image_cropper.py:24-28 | every cell of the 3 by 4 grid lies within the sheet: 0 <= left <= right <= W and 0 <= top <= bottom <= H |
| `ImageCropper.FrameBox` | image_cropper.py:58-63 | the crop box of frame i: the cell box of the (column, row) pair that frame i has in the frame list |
| `ImageCropper.FrameBoxShape` | image_cropper.py:39-63 | frame i is column i of row 1, its box is (i*sw, sh, (i+1)*sw, 2*sh) and lies within the sheet |
| `ImageCropper.FramesAbut` | image_cropper.py:43-63 | consecutive frames share their rows and the right edge of one is the left edge of the next |
| `ImageCropper.FrameBoxNonEmpty` | image_cropper.py:27-28 | a sheet at least 3 wide and 4 high gives frames of at least one pixel each way |
| `ImageCropper.NearBackground` | image_cropper.py:75-77 | the tolerance test: red, green and blue each differ from the background's by less than 30 in absolute value; alpha is not compared |
| `ImageCropper.KeyPixel` | image_cropper.py:75-80 | an output pixel is either the input pixel or fully transparent: transparent when R, G and B are each within less than 30 of the background, the input pixel otherwise |
| `ImageCropper.NearBackgroundIgnoresAlpha` | image_cropper.py:75-77 | changing the alpha of the pixel or of the background never changes whether it is keyed out |
| `ImageCropper.KeyPixelIdempotent` | image_cropper.py:75-80 | keying a pixel twice against the same background gives what keying it once gives |
| `ImageCropper.BackgroundRemoved` | image_cropper.py:69-80 | defined exactly when the sprite has a pixel; then it has one output pixel per input pixel, in order, each keyed against the top-left pixel, and the top-left pixel itself always becomes transparent |
| `ImageCropper.RemoveBackground` | image_cropper.py:69-80 | the append loop produces exactly the keyed sprite, and fails on an empty sprite |
| `ImageCropper.ProcessSheet` | image_cropper.py:58-94 | frames are processed in order; frame i uses its grid box and is saved to `"assets/" + filenames[i]` with its keyed pixels; the run completes with all three frames unless a frame's crop is empty, in which case exactly the frames before it are saved |

## Left out

- main.py: the pygame window and event loop are user interface, and depend on a `utils` module that is not part of this model.
- The file search, the `assets` directory creation, image loading, `getbbox` trimming, `thumbnail` resizing, `save` and the progress messages of image_cropper.py: file-system I/O and imaging-library calls whose behaviour is not visible. The saved frames are therefore the keyed pixels before trimming and resizing.
- Errors raised by the imaging library other than the empty-sprite index error (a missing or unreadable file, a failed save): they are foreign behaviour; the catch-all handler would end the run at that point.
- `NeuralNet.NeuralNetwork.Sigmoid`: the exact floating-point values of `math.exp` and its overflow threshold are not modelled; the exponential is any function into non-negative values or overflow, so the model also admits an overflow for positive x, where it returns 1 as the code does.
- Float rounding in the dot product and in the mutation: weights and inputs are exact reals.
- `NeuralNet.NeuralNetwork.Sigmoid`: the rounding of `1 + p` and of the division is not modelled either. With exact reals the result is 1 only when p is 0, whereas in floats `1 / (1 + p)` already rounds to 1.0 once p is below about 1e-16 (x above about 37).
- The pseudo-random generator: the draws are parameters. In the code the delta is only drawn when the roll selects the weight; the model takes one delta per weight and uses it only then.
- Speciation, species fitness, sorting, champion cloning and reproduction: the code has no implementation of them, only comments, and the `NeuralNetwork` import in genetic_alg.py is commented out.
