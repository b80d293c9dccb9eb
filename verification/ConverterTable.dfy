/** `channel_conversion_matrix`: the 64 coefficient tables, and the proof that every printed
    converter is right. Each table is written as its rows, one for each output channel. */
module ConverterTable {
  import opened ConverterProgram
  import opened ConverterGenerator
  import opened ConverterCorrectness

  type Rows = seq<seq<real>>

  /** From Mono. */
  function Rows1(toChans: nat): Rows {
    match toChans
    case 1 =>
      [[1.0]]
    case 2 =>
      [[1.0], [1.0]]
    case 3 =>
      [[1.0], [1.0], [0.0]]
    case 4 =>
      [[1.0], [1.0], [0.0], [0.0]]
    case 5 =>
      [[1.0], [1.0], [0.0], [0.0], [0.0]]
    case 6 =>
      [[1.0], [1.0], [0.0], [0.0], [0.0], [0.0]]
    case 7 =>
      [[1.0], [1.0], [0.0], [0.0], [0.0], [0.0], [0.0]]
    case 8 =>
      [[1.0], [1.0], [0.0], [0.0], [0.0], [0.0], [0.0], [0.0]]
    case _ => []
  }

  /** From Stereo. */
  function Rows2(toChans: nat): Rows {
    match toChans
    case 1 =>
      [[0.5, 0.5]]
    case 2 =>
      [[1.0, 0.0], [0.0, 1.0]]
    case 3 =>
      [[1.0, 0.0], [0.0, 1.0], [0.0, 0.0]]
    case 4 =>
      [[1.0, 0.0], [0.0, 1.0], [0.0, 0.0], [0.0, 0.0]]
    case 5 =>
      [[1.0, 0.0], [0.0, 1.0], [0.0, 0.0], [0.0, 0.0], [0.0, 0.0]]
    case 6 =>
      [[1.0, 0.0], [0.0, 1.0], [0.0, 0.0], [0.0, 0.0], [0.0, 0.0], [0.0, 0.0]]
    case 7 =>
      [[1.0, 0.0], [0.0, 1.0], [0.0, 0.0], [0.0, 0.0], [0.0, 0.0], [0.0, 0.0], [0.0, 0.0]]
    case 8 =>
      [[1.0, 0.0], [0.0, 1.0], [0.0, 0.0], [0.0, 0.0], [0.0, 0.0], [0.0, 0.0], [0.0, 0.0], [0.0, 0.0]]
    case _ => []
  }

  /** From 2.1. */
  function Rows3(toChans: nat): Rows {
    match toChans
    case 1 =>
      [[0.333333343, 0.333333343, 0.333333343]]
    case 2 =>
      [[0.800000012, 0.0, 0.200000003], [0.0, 0.800000012, 0.200000003]]
    case 3 =>
      [[1.0, 0.0, 0.0], [0.0, 1.0, 0.0], [0.0, 0.0, 1.0]]
    case 4 =>
      [[0.888888896, 0.0, 0.111111112], [0.0, 0.888888896, 0.111111112], [0.0, 0.0, 0.111111112],
       [0.0, 0.0, 0.111111112]]
    case 5 =>
      [[1.0, 0.0, 0.0], [0.0, 1.0, 0.0], [0.0, 0.0, 1.0], [0.0, 0.0, 0.0], [0.0, 0.0, 0.0]]
    case 6 =>
      [[1.0, 0.0, 0.0], [0.0, 1.0, 0.0], [0.0, 0.0, 0.0], [0.0, 0.0, 1.0], [0.0, 0.0, 0.0], [0.0, 0.0, 0.0]]
    case 7 =>
      [[1.0, 0.0, 0.0], [0.0, 1.0, 0.0], [0.0, 0.0, 0.0], [0.0, 0.0, 1.0], [0.0, 0.0, 0.0], [0.0, 0.0, 0.0],
       [0.0, 0.0, 0.0]]
    case 8 =>
      [[1.0, 0.0, 0.0], [0.0, 1.0, 0.0], [0.0, 0.0, 0.0], [0.0, 0.0, 1.0], [0.0, 0.0, 0.0], [0.0, 0.0, 0.0],
       [0.0, 0.0, 0.0], [0.0, 0.0, 0.0]]
    case _ => []
  }

  /** From Quad. */
  function Rows4(toChans: nat): Rows {
    match toChans
    case 1 =>
      [[0.25, 0.25, 0.25, 0.25]]
    case 2 =>
      [[0.421000004, 0.0, 0.358999997, 0.219999999], [0.0, 0.421000004, 0.219999999, 0.358999997]]
    case 3 =>
      [[0.421000004, 0.0, 0.358999997, 0.219999999], [0.0, 0.421000004, 0.219999999, 0.358999997],
       [0.0, 0.0, 0.0, 0.0]]
    case 4 =>
      [[1.0, 0.0, 0.0, 0.0], [0.0, 1.0, 0.0, 0.0], [0.0, 0.0, 1.0, 0.0], [0.0, 0.0, 0.0, 1.0]]
    case 5 =>
      [[1.0, 0.0, 0.0, 0.0], [0.0, 1.0, 0.0, 0.0], [0.0, 0.0, 0.0, 0.0], [0.0, 0.0, 1.0, 0.0],
       [0.0, 0.0, 0.0, 1.0]]
    case 6 =>
      [[1.0, 0.0, 0.0, 0.0], [0.0, 1.0, 0.0, 0.0], [0.0, 0.0, 0.0, 0.0], [0.0, 0.0, 0.0, 0.0],
       [0.0, 0.0, 1.0, 0.0], [0.0, 0.0, 0.0, 1.0]]
    case 7 =>
      [[0.939999998, 0.0, 0.0, 0.0], [0.0, 0.939999998, 0.0, 0.0], [0.0, 0.0, 0.0, 0.0],
       [0.0, 0.0, 0.0, 0.0], [0.0, 0.0, 0.5, 0.5], [0.0, 0.0, 0.796000004, 0.0],
       [0.0, 0.0, 0.0, 0.796000004]]
    case 8 =>
      [[1.0, 0.0, 0.0, 0.0], [0.0, 1.0, 0.0, 0.0], [0.0, 0.0, 0.0, 0.0], [0.0, 0.0, 0.0, 0.0],
       [0.0, 0.0, 1.0, 0.0], [0.0, 0.0, 0.0, 1.0], [0.0, 0.0, 0.0, 0.0], [0.0, 0.0, 0.0, 0.0]]
    case _ => []
  }

  /** From 4.1. */
  function Rows5(toChans: nat): Rows {
    match toChans
    case 1 =>
      [[0.200000003, 0.200000003, 0.200000003, 0.200000003, 0.200000003]]
    case 2 =>
      [[0.374222219, 0.0, 0.111111112, 0.319111109, 0.195555553],
       [0.0, 0.374222219, 0.111111112, 0.195555553, 0.319111109]]
    case 3 =>
      [[0.421000004, 0.0, 0.0, 0.358999997, 0.219999999], [0.0, 0.421000004, 0.0, 0.219999999, 0.358999997],
       [0.0, 0.0, 1.0, 0.0, 0.0]]
    case 4 =>
      [[0.941176474, 0.0, 0.05882353, 0.0, 0.0], [0.0, 0.941176474, 0.05882353, 0.0, 0.0],
       [0.0, 0.0, 0.05882353, 0.941176474, 0.0], [0.0, 0.0, 0.05882353, 0.0, 0.941176474]]
    case 5 =>
      [[1.0, 0.0, 0.0, 0.0, 0.0], [0.0, 1.0, 0.0, 0.0, 0.0], [0.0, 0.0, 1.0, 0.0, 0.0],
       [0.0, 0.0, 0.0, 1.0, 0.0], [0.0, 0.0, 0.0, 0.0, 1.0]]
    case 6 =>
      [[1.0, 0.0, 0.0, 0.0, 0.0], [0.0, 1.0, 0.0, 0.0, 0.0], [0.0, 0.0, 0.0, 0.0, 0.0],
       [0.0, 0.0, 1.0, 0.0, 0.0], [0.0, 0.0, 0.0, 1.0, 0.0], [0.0, 0.0, 0.0, 0.0, 1.0]]
    case 7 =>
      [[0.939999998, 0.0, 0.0, 0.0, 0.0], [0.0, 0.939999998, 0.0, 0.0, 0.0], [0.0, 0.0, 0.0, 0.0, 0.0],
       [0.0, 0.0, 1.0, 0.0, 0.0], [0.0, 0.0, 0.0, 0.5, 0.5], [0.0, 0.0, 0.0, 0.796000004, 0.0],
       [0.0, 0.0, 0.0, 0.0, 0.796000004]]
    case 8 =>
      [[1.0, 0.0, 0.0, 0.0, 0.0], [0.0, 1.0, 0.0, 0.0, 0.0], [0.0, 0.0, 0.0, 0.0, 0.0],
       [0.0, 0.0, 1.0, 0.0, 0.0], [0.0, 0.0, 0.0, 1.0, 0.0], [0.0, 0.0, 0.0, 0.0, 1.0],
       [0.0, 0.0, 0.0, 0.0, 0.0], [0.0, 0.0, 0.0, 0.0, 0.0]]
    case _ => []
  }

  /** From 5.1. */
  function Rows6(toChans: nat): Rows {
    match toChans
    case 1 =>
      [[0.166666672, 0.166666672, 0.166666672, 0.166666672, 0.166666672, 0.166666672]]
    case 2 =>
      [[0.294545442, 0.0, 0.208181813, 0.090909094, 0.25181818, 0.154545456],
       [0.0, 0.294545442, 0.208181813, 0.090909094, 0.154545456, 0.25181818]]
    case 3 =>
      [[0.324000001, 0.0, 0.229000002, 0.0, 0.27700001, 0.170000002],
       [0.0, 0.324000001, 0.229000002, 0.0, 0.170000002, 0.27700001], [0.0, 0.0, 0.0, 1.0, 0.0, 0.0]]
    case 4 =>
      [[0.558095276, 0.0, 0.394285709, 0.047619049, 0.0, 0.0],
       [0.0, 0.558095276, 0.394285709, 0.047619049, 0.0, 0.0],
       [0.0, 0.0, 0.0, 0.047619049, 0.558095276, 0.0], [0.0, 0.0, 0.0, 0.047619049, 0.0, 0.558095276]]
    case 5 =>
      [[0.586000025, 0.0, 0.414000005, 0.0, 0.0, 0.0], [0.0, 0.586000025, 0.414000005, 0.0, 0.0, 0.0],
       [0.0, 0.0, 0.0, 1.0, 0.0, 0.0], [0.0, 0.0, 0.0, 0.0, 0.586000025, 0.0],
       [0.0, 0.0, 0.0, 0.0, 0.0, 0.586000025]]
    case 6 =>
      [[1.0, 0.0, 0.0, 0.0, 0.0, 0.0], [0.0, 1.0, 0.0, 0.0, 0.0, 0.0], [0.0, 0.0, 1.0, 0.0, 0.0, 0.0],
       [0.0, 0.0, 0.0, 1.0, 0.0, 0.0], [0.0, 0.0, 0.0, 0.0, 1.0, 0.0], [0.0, 0.0, 0.0, 0.0, 0.0, 1.0]]
    case 7 =>
      [[0.939999998, 0.0, 0.0, 0.0, 0.0, 0.0], [0.0, 0.939999998, 0.0, 0.0, 0.0, 0.0],
       [0.0, 0.0, 0.939999998, 0.0, 0.0, 0.0], [0.0, 0.0, 0.0, 1.0, 0.0, 0.0],
       [0.0, 0.0, 0.0, 0.0, 0.5, 0.5], [0.0, 0.0, 0.0, 0.0, 0.796000004, 0.0],
       [0.0, 0.0, 0.0, 0.0, 0.0, 0.796000004]]
    case 8 =>
      [[1.0, 0.0, 0.0, 0.0, 0.0, 0.0], [0.0, 1.0, 0.0, 0.0, 0.0, 0.0], [0.0, 0.0, 1.0, 0.0, 0.0, 0.0],
       [0.0, 0.0, 0.0, 1.0, 0.0, 0.0], [0.0, 0.0, 0.0, 0.0, 1.0, 0.0], [0.0, 0.0, 0.0, 0.0, 0.0, 1.0],
       [0.0, 0.0, 0.0, 0.0, 0.0, 0.0], [0.0, 0.0, 0.0, 0.0, 0.0, 0.0]]
    case _ => []
  }

  /** From 6.1. */
  function Rows7(toChans: nat): Rows {
    match toChans
    case 1 =>
      [[0.143142849, 0.143142849, 0.143142849, 0.142857149, 0.143142849, 0.143142849, 0.143142849]]
    case 2 =>
      [[0.247384623, 0.0, 0.174461529, 0.07692308, 0.174461529, 0.226153851, 0.100615382],
       [0.0, 0.247384623, 0.174461529, 0.07692308, 0.174461529, 0.100615382, 0.226153851]]
    case 3 =>
      [[0.268000007, 0.0, 0.188999996, 0.0, 0.188999996, 0.245000005, 0.108999997],
       [0.0, 0.268000007, 0.188999996, 0.0, 0.188999996, 0.108999997, 0.245000005],
       [0.0, 0.0, 0.0, 1.0, 0.0, 0.0, 0.0]]
    case 4 =>
      [[0.463679999, 0.0, 0.327360004, 0.040000003, 0.0, 0.168960005, 0.0],
       [0.0, 0.463679999, 0.327360004, 0.040000003, 0.0, 0.0, 0.168960005],
       [0.0, 0.0, 0.0, 0.040000003, 0.327360004, 0.431039989, 0.0],
       [0.0, 0.0, 0.0, 0.040000003, 0.327360004, 0.0, 0.431039989]]
    case 5 =>
      [[0.48300001, 0.0, 0.340999991, 0.0, 0.0, 0.175999999, 0.0],
       [0.0, 0.48300001, 0.340999991, 0.0, 0.0, 0.0, 0.175999999], [0.0, 0.0, 0.0, 1.0, 0.0, 0.0, 0.0],
       [0.0, 0.0, 0.0, 0.0, 0.340999991, 0.449000001, 0.0],
       [0.0, 0.0, 0.0, 0.0, 0.340999991, 0.0, 0.449000001]]
    case 6 =>
      [[0.611000001, 0.0, 0.0, 0.0, 0.0, 0.223000005, 0.0],
       [0.0, 0.611000001, 0.0, 0.0, 0.0, 0.0, 0.223000005], [0.0, 0.0, 0.611000001, 0.0, 0.0, 0.0, 0.0],
       [0.0, 0.0, 0.0, 1.0, 0.0, 0.0, 0.0], [0.0, 0.0, 0.0, 0.0, 0.432000011, 0.568000019, 0.0],
       [0.0, 0.0, 0.0, 0.0, 0.432000011, 0.0, 0.568000019]]
    case 7 =>
      [[1.0, 0.0, 0.0, 0.0, 0.0, 0.0, 0.0], [0.0, 1.0, 0.0, 0.0, 0.0, 0.0, 0.0],
       [0.0, 0.0, 1.0, 0.0, 0.0, 0.0, 0.0], [0.0, 0.0, 0.0, 1.0, 0.0, 0.0, 0.0],
       [0.0, 0.0, 0.0, 0.0, 1.0, 0.0, 0.0], [0.0, 0.0, 0.0, 0.0, 0.0, 1.0, 0.0],
       [0.0, 0.0, 0.0, 0.0, 0.0, 0.0, 1.0]]
    case 8 =>
      [[1.0, 0.0, 0.0, 0.0, 0.0, 0.0, 0.0], [0.0, 1.0, 0.0, 0.0, 0.0, 0.0, 0.0],
       [0.0, 0.0, 1.0, 0.0, 0.0, 0.0, 0.0], [0.0, 0.0, 0.0, 1.0, 0.0, 0.0, 0.0],
       [0.0, 0.0, 0.0, 0.0, 0.707000017, 0.0, 0.0], [0.0, 0.0, 0.0, 0.0, 0.707000017, 0.0, 0.0],
       [0.0, 0.0, 0.0, 0.0, 0.0, 1.0, 0.0], [0.0, 0.0, 0.0, 0.0, 0.0, 0.0, 1.0]]
    case _ => []
  }

  /** From 7.1. */
  function Rows8(toChans: nat): Rows {
    match toChans
    case 1 =>
      [[0.125125006, 0.125125006, 0.125125006, 0.125, 0.125125006, 0.125125006, 0.125125006, 0.125125006]]
    case 2 =>
      [[0.211866662, 0.0, 0.150266662, 0.06666667, 0.181066677, 0.111066669, 0.194133341, 0.085866667],
       [0.0, 0.211866662, 0.150266662, 0.06666667, 0.111066669, 0.181066677, 0.085866667, 0.194133341]]
    case 3 =>
      [[0.226999998, 0.0, 0.160999998, 0.0, 0.194000006, 0.119000003, 0.208000004, 0.092],
       [0.0, 0.226999998, 0.160999998, 0.0, 0.119000003, 0.194000006, 0.092, 0.208000004],
       [0.0, 0.0, 0.0, 1.0, 0.0, 0.0, 0.0, 0.0]]
    case 4 =>
      [[0.466344833, 0.0, 0.329241365, 0.034482758, 0.0, 0.0, 0.169931039, 0.0],
       [0.0, 0.466344833, 0.329241365, 0.034482758, 0.0, 0.0, 0.0, 0.169931039],
       [0.0, 0.0, 0.0, 0.034482758, 0.466344833, 0.0, 0.433517247, 0.0],
       [0.0, 0.0, 0.0, 0.034482758, 0.0, 0.466344833, 0.0, 0.433517247]]
    case 5 =>
      [[0.48300001, 0.0, 0.340999991, 0.0, 0.0, 0.0, 0.175999999, 0.0],
       [0.0, 0.48300001, 0.340999991, 0.0, 0.0, 0.0, 0.0, 0.175999999],
       [0.0, 0.0, 0.0, 1.0, 0.0, 0.0, 0.0, 0.0], [0.0, 0.0, 0.0, 0.0, 0.48300001, 0.0, 0.449000001, 0.0],
       [0.0, 0.0, 0.0, 0.0, 0.0, 0.48300001, 0.0, 0.449000001]]
    case 6 =>
      [[0.518000007, 0.0, 0.0, 0.0, 0.0, 0.0, 0.188999996, 0.0],
       [0.0, 0.518000007, 0.0, 0.0, 0.0, 0.0, 0.0, 0.188999996],
       [0.0, 0.0, 0.518000007, 0.0, 0.0, 0.0, 0.0, 0.0], [0.0, 0.0, 0.0, 1.0, 0.0, 0.0, 0.0, 0.0],
       [0.0, 0.0, 0.0, 0.0, 0.518000007, 0.0, 0.481999993, 0.0],
       [0.0, 0.0, 0.0, 0.0, 0.0, 0.518000007, 0.0, 0.481999993]]
    case 7 =>
      [[0.541000009, 0.0, 0.0, 0.0, 0.0, 0.0, 0.0, 0.0], [0.0, 0.541000009, 0.0, 0.0, 0.0, 0.0, 0.0, 0.0],
       [0.0, 0.0, 0.541000009, 0.0, 0.0, 0.0, 0.0, 0.0], [0.0, 0.0, 0.0, 1.0, 0.0, 0.0, 0.0, 0.0],
       [0.0, 0.0, 0.0, 0.0, 0.287999988, 0.287999988, 0.0, 0.0],
       [0.0, 0.0, 0.0, 0.0, 0.458999991, 0.0, 0.541000009, 0.0],
       [0.0, 0.0, 0.0, 0.0, 0.0, 0.458999991, 0.0, 0.541000009]]
    case 8 =>
      [[1.0, 0.0, 0.0, 0.0, 0.0, 0.0, 0.0, 0.0], [0.0, 1.0, 0.0, 0.0, 0.0, 0.0, 0.0, 0.0],
       [0.0, 0.0, 1.0, 0.0, 0.0, 0.0, 0.0, 0.0], [0.0, 0.0, 0.0, 1.0, 0.0, 0.0, 0.0, 0.0],
       [0.0, 0.0, 0.0, 0.0, 1.0, 0.0, 0.0, 0.0], [0.0, 0.0, 0.0, 0.0, 0.0, 1.0, 0.0, 0.0],
       [0.0, 0.0, 0.0, 0.0, 0.0, 0.0, 1.0, 0.0], [0.0, 0.0, 0.0, 0.0, 0.0, 0.0, 0.0, 1.0]]
    case _ => []
  }

  function TableRows(fromChans: nat, toChans: nat): Rows {
    match fromChans
    case 1 => Rows1(toChans)
    case 2 => Rows2(toChans)
    case 3 => Rows3(toChans)
    case 4 => Rows4(toChans)
    case 5 => Rows5(toChans)
    case 6 => Rows6(toChans)
    case 7 => Rows7(toChans)
    case 8 => Rows8(toChans)
    case _ => []
  }

  /** The rows one after the other, as `fptr` walks them. */
  function Flatten(rows: Rows): Matrix {
    if rows == [] then [] else Flatten(rows[..|rows| - 1]) + rows[|rows| - 1]
  }

  function Table(fromChans: nat, toChans: nat): Matrix {
    Flatten(TableRows(fromChans, toChans))
  }

  predicate Rectangular(rows: Rows, fromChans: nat, toChans: nat) {
    |rows| == toChans && forall j :: 0 <= j < toChans ==> |rows[j]| == fromChans
  }

  /** Output `j` reading input `i` would read it after cell `i` was overwritten. */
  predicate Late(fromChans: nat, toChans: nat, j: nat, i: nat) {
    if toChans > fromChans then j < i else i < j
  }

  /** Some other output uses input `i` too, so that it is hoisted. */
  predicate UsedElsewhere(rows: Rows, fromChans: nat, toChans: nat, j: nat, i: nat)
    requires Rectangular(rows, fromChans, toChans) && i < fromChans
  {
    exists k :: 0 <= k < toChans && k != j && rows[k][i] != 0.0
  }

  predicate RowsSafe(rows: Rows, fromChans: nat, toChans: nat) {
    && Rectangular(rows, fromChans, toChans)
    && forall j, i | 0 <= j < toChans && 0 <= i < fromChans ::
      Late(fromChans, toChans, j, i) && rows[j][i] != 0.0 ==> UsedElsewhere(rows, fromChans, toChans, j, i)
  }

  lemma {:induction false} FlattenAt(rows: Rows, fromChans: nat, toChans: nat, j: nat, i: nat)
    requires Rectangular(rows, fromChans, toChans) && j < toChans && i < fromChans
    ensures |Flatten(rows)| == Offset(toChans, fromChans)
    ensures Coef(Flatten(rows), fromChans, j, i) == rows[j][i]
  {
    FlattenLength(rows, fromChans, toChans);
    var init := rows[..toChans - 1];
    FlattenLength(init, fromChans, toChans - 1);
    OffsetStep(toChans - 1, 0, fromChans);
    if j < toChans - 1 {
      OffsetStep(j, toChans - 1, fromChans);
      FlattenAt(init, fromChans, toChans - 1, j, i);
    }
    hide Offset;
  }

  lemma {:induction false} FlattenLength(rows: Rows, fromChans: nat, toChans: nat)
    requires Rectangular(rows, fromChans, toChans)
    ensures |Flatten(rows)| == Offset(toChans, fromChans)
  {
    OffsetStep(0, 0, fromChans);
    if toChans > 0 {
      OffsetStep(toChans - 1, 0, fromChans);
      hide Offset;
      FlattenLength(rows[..toChans - 1], fromChans, toChans - 1);
    }
  }

  lemma SafeRowsAreSafe(rows: Rows, fromChans: nat, toChans: nat)
    requires RowsSafe(rows, fromChans, toChans)
    ensures Safe(Flatten(rows), fromChans, toChans) && Shaped(Flatten(rows), fromChans, toChans)
  {
    FlattenLength(rows, fromChans, toChans);
    hide Offset, Coef, Uses;
    forall i, j | 0 <= i < fromChans && 0 <= j < toChans
        && Uses(Flatten(rows), fromChans, toChans, i) == 1 && Coef(Flatten(rows), fromChans, j, i) != 0.0
      ensures !Late(fromChans, toChans, j, i)
    {
      FlattenAt(rows, fromChans, toChans, j, i);
      if Late(fromChans, toChans, j, i) {
        var k :| 0 <= k < toChans && k != j && rows[k][i] != 0.0;
        FlattenAt(rows, fromChans, toChans, k, i);
        assert Coef(Flatten(rows), fromChans, k, i) != 0.0;
        UsedSomewhere(Flatten(rows), fromChans, toChans, j, i);
      }
    }
  }

  lemma Rows1Safe(toChans: nat)
    requires 1 <= toChans <= 8 && toChans != 1
    ensures RowsSafe(Rows1(toChans), 1, toChans)
  {
  }

  lemma Rows2Safe(toChans: nat)
    requires 1 <= toChans <= 8 && toChans != 2
    ensures RowsSafe(Rows2(toChans), 2, toChans)
  {
  }

  lemma Rows3Safe(toChans: nat)
    requires 1 <= toChans <= 8 && toChans != 3
    ensures RowsSafe(Rows3(toChans), 3, toChans)
  {
    var rows := Rows3(toChans);
    if toChans == 4 {
      assert rows[1][2] != 0.0;
      assert rows[0][2] != 0.0;
    }
  }

  lemma Rows4Safe(toChans: nat)
    requires 1 <= toChans <= 8 && toChans != 4
    ensures RowsSafe(Rows4(toChans), 4, toChans)
  {
  }

  lemma Rows5Safe(toChans: nat)
    requires 1 <= toChans <= 8 && toChans != 5
    ensures RowsSafe(Rows5(toChans), 5, toChans)
  {
    var rows := Rows5(toChans);
    if toChans == 4 {
      assert rows[0][2] != 0.0;
    }
  }

  lemma Rows6Safe(toChans: nat)
    requires 1 <= toChans <= 8 && toChans != 6
    ensures RowsSafe(Rows6(toChans), 6, toChans)
  {
    var rows := Rows6(toChans);
    if toChans == 7 {
      assert rows[6][5] != 0.0;
    }
  }

  lemma Rows7Safe(toChans: nat)
    requires 1 <= toChans <= 8 && toChans != 7
    ensures RowsSafe(Rows7(toChans), 7, toChans)
  {
    var rows := Rows7(toChans);
    if toChans == 6 {
      assert rows[4][4] != 0.0;
    }
  }

  lemma Rows8To7Safe()
    ensures RowsSafe(Rows8(7), 8, 7)
  {
    var rows := Rows8(7);
    assert rows[4][4] != 0.0;
    assert rows[4][5] != 0.0;
  }

  lemma Rows8Safe(toChans: nat)
    requires 1 <= toChans <= 8 && toChans != 8
    ensures RowsSafe(Rows8(toChans), 8, toChans)
  {
    if toChans == 7 {
      Rows8To7Safe();
    }
  }

  lemma TableIsSafe(fromChans: nat, toChans: nat)
    requires 1 <= fromChans <= NUM_CHANNELS && 1 <= toChans <= NUM_CHANNELS && fromChans != toChans
    ensures Safe(Table(fromChans, toChans), fromChans, toChans)
    ensures Shaped(Table(fromChans, toChans), fromChans, toChans)
  {
    hide Rows1, Rows2, Rows3, Rows4, Rows5, Rows6, Rows7, Rows8, RowsSafe, Safe, Flatten;
    match fromChans
    case 1 => Rows1Safe(toChans); SafeRowsAreSafe(Rows1(toChans), 1, toChans);
    case 2 => Rows2Safe(toChans); SafeRowsAreSafe(Rows2(toChans), 2, toChans);
    case 3 => Rows3Safe(toChans); SafeRowsAreSafe(Rows3(toChans), 3, toChans);
    case 4 => Rows4Safe(toChans); SafeRowsAreSafe(Rows4(toChans), 4, toChans);
    case 5 => Rows5Safe(toChans); SafeRowsAreSafe(Rows5(toChans), 5, toChans);
    case 6 => Rows6Safe(toChans); SafeRowsAreSafe(Rows6(toChans), 6, toChans);
    case 7 => Rows7Safe(toChans); SafeRowsAreSafe(Rows7(toChans), 7, toChans);
    case 8 => Rows8Safe(toChans); SafeRowsAreSafe(Rows8(toChans), 8, toChans);
  }

  /** Each of the 56 printed converters turns every buffer of every length into the matrix
      product of its frames, in place. */
  lemma EveryConverterConverts(fromChans: nat, toChans: nat)
    requires 1 <= fromChans <= NUM_CHANNELS && 1 <= toChans <= NUM_CHANNELS && fromChans != toChans
    ensures var p := Generate(Table(fromChans, toChans), fromChans, toChans);
      p.Some? && Fits(p.value) && Converts(Table(fromChans, toChans), fromChans, toChans, p.value)
  {
    hide Table, Converts, Safe, Fits, LocalsOf, BodyDown, BodyUp;
    TableIsSafe(fromChans, toChans);
    var p := Generate(Table(fromChans, toChans), fromChans, toChans).value;
    ConvertsIffSafe(Table(fromChans, toChans), fromChans, toChans, p);
    GeneratedFits(Table(fromChans, toChans), fromChans, toChans, p);
  }
}
